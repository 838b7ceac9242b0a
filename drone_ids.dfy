/** The drone names `f"d{i+1}"` that `create_swarm` hands out. */
module DroneIds {

  /** The decimal digit of `n < 10`. */
  function Digit(n: nat): (c: char)
    requires n < 10
    ensures '0' <= c <= '9' && c as int - '0' as int == n
  {
    ('0' as int + n) as char
  }

  /** Python's `str(n)` for a natural number: its decimal digits, without
      leading zeros. */
  function NatToString(n: nat): (s: string)
    ensures |s| >= 1
    ensures forall k :: 0 <= k < |s| ==> '0' <= s[k] <= '9'
    ensures |s| > 1 ==> s[0] != '0'
  {
    if n < 10 then [Digit(n)] else NatToString(n / 10) + [Digit(n % 10)]
  }

  /** Different numbers have different decimal strings. */
  lemma {:induction false} NatToStringInjective(a: nat, b: nat)
    requires NatToString(a) == NatToString(b)
    ensures a == b
  {
    var sa, sb := NatToString(a), NatToString(b);
    if a < 10 && b < 10 {
      assert Digit(a) == sa[0] == sb[0] == Digit(b);
    } else if a < 10 || b < 10 {
      // one string has a single digit, the other more
      assert false;
    } else {
      var pa, pb := NatToString(a / 10), NatToString(b / 10);
      assert sa == pa + [Digit(a % 10)] && sb == pb + [Digit(b % 10)];
      assert |pa| == |pb|;
      assert pa == sa[..|sa| - 1] == sb[..|sb| - 1] == pb;
      assert Digit(a % 10) == sa[|sa| - 1] == sb[|sb| - 1] == Digit(b % 10);
      NatToStringInjective(a / 10, b / 10);
    }
  }

  /** `f"d{i}"`. */
  function DroneId(i: nat): (s: string)
    ensures |s| >= 2 && s[0] == 'd'
    ensures forall k :: 1 <= k < |s| ==> '0' <= s[k] <= '9'
  {
    "d" + NatToString(i)
  }

  /** Different numbers name different drones. */
  lemma DroneIdInjective(i: nat, j: nat)
    requires DroneId(i) == DroneId(j)
    ensures i == j
  {
    assert NatToString(i) == DroneId(i)[1..] == DroneId(j)[1..] == NatToString(j);
    NatToStringInjective(i, j);
  }

  /** The ids `create_swarm(count)` returns: `d1`, ..., `d<count>` in order,
      none for a count of zero or less (`range(count)` is then empty). */
  function SwarmIds(count: int): (ids: seq<string>)
    ensures |ids| == if count > 0 then count else 0
    ensures forall k :: 0 <= k < |ids| ==> ids[k] == DroneId(k + 1)
  {
    if count <= 0 then [] else SwarmIds(count - 1) + [DroneId(count)]
  }

  /** The swarm ids are pairwise different. */
  lemma SwarmIdsDistinct(count: int, k: nat, l: nat)
    requires k < l < |SwarmIds(count)|
    ensures SwarmIds(count)[k] != SwarmIds(count)[l]
  {
    if SwarmIds(count)[k] == SwarmIds(count)[l] {
      DroneIdInjective(k + 1, l + 1);
      assert false;
    }
  }
}
