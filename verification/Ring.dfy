// Round-robin scanning. The pool scans its hosts, and each host its clients, by
// starting at a cursor and going once around; both are instances of Scan below.
module Ring {
  import opened Wrappers

  // The cursor arithmetic `x % n` for a position less than one lap past the end.
  function Wrap(x: nat, n: nat): nat
    requires x < 2 * n
  {
    if x < n then x else x - n
  }

  // How many steps of a scan starting at `from` come before position k.
  function Dist(from: nat, k: nat, n: nat): nat
    requires from < n && k < n
  {
    if k >= from then k - from else k + n - from
  }

  // That many steps on from the cursor, modulo the lap, is the position; and it is
  // less than a lap.
  lemma DistIsSteps(from: nat, k: nat, n: nat)
    requires from < n && k < n
    ensures 0 <= Dist(from, k, n) < n
    ensures Dist(from, k, n) == k - from || Dist(from, k, n) == k - from + n
    ensures Wrap(from + Dist(from, k, n), n) == k == (from + Dist(from, k, n)) % n
  {
    ModIsWrap(from + Dist(from, k, n), n);
  }

  // The position reached by the first successful step of a scan, from step i on.
  function ScanFrom(ok: seq<bool>, from: nat, i: nat): Option<nat>
    requires from < |ok| && i <= |ok|
    decreases |ok| - i
  {
    if i == |ok| then None
    else
      var k := Wrap(from + i, |ok|);
      if ok[k] then Some(k) else ScanFrom(ok, from, i + 1)
  }

  function Scan(ok: seq<bool>, from: nat): Option<nat>
    requires |ok| == 0 || from < |ok|
  {
    if |ok| == 0 then None else ScanFrom(ok, from, 0)
  }

  lemma ModIsWrap(x: nat, n: nat)
    requires x < 2 * n
    ensures x % n == Wrap(x, n)
  {
    if x >= n {
      assert x == n * 1 + (x - n);
    }
  }

  // A cursor is advanced with the remainder operator.
  method Lap(x: nat, n: nat) returns (r: nat)
    requires x < 2 * n
    ensures r == Wrap(x, n)
  {
    ModIsWrap(x, n);
    r := x % n;
  }

  lemma {:induction false} ScanFromFindsNearest(ok: seq<bool>, from: nat, i: nat)
    requires from < |ok| && i <= |ok|
    requires forall k | 0 <= k < |ok| && Dist(from, k, |ok|) < i :: !ok[k]
    ensures ScanFrom(ok, from, i).None? ==> forall k | 0 <= k < |ok| :: !ok[k]
    ensures ScanFrom(ok, from, i).Some? ==>
              var c := ScanFrom(ok, from, i).value;
              && c < |ok| && ok[c]
              && forall k | 0 <= k < |ok| && ok[k] :: Dist(from, c, |ok|) <= Dist(from, k, |ok|)
    decreases |ok| - i
  {
    if i < |ok| {
      var c := Wrap(from + i, |ok|);
      assert Dist(from, c, |ok|) == i;
      if !ok[c] {
        forall k | 0 <= k < |ok| && Dist(from, k, |ok|) < i + 1
          ensures !ok[k]
        {
          assert Dist(from, k, |ok|) == i ==> k == c;
        }
        ScanFromFindsNearest(ok, from, i + 1);
      }
    }
  }

  // A scan fails only if nothing qualifies, and otherwise picks the qualifying
  // position nearest to the cursor in cyclic order.
  lemma ScanFindsNearest(ok: seq<bool>, from: nat)
    requires |ok| == 0 || from < |ok|
    ensures Scan(ok, from).None? <==> forall k | 0 <= k < |ok| :: !ok[k]
    ensures Scan(ok, from).Some? ==>
              var c := Scan(ok, from).value;
              && c < |ok| && ok[c]
              && forall k | 0 <= k < |ok| && ok[k] :: Dist(from, c, |ok|) <= Dist(from, k, |ok|)
  {
    if |ok| > 0 {
      ScanFromFindsNearest(ok, from, 0);
    }
  }

  // Serving c and moving the cursor just past it brings every other position
  // that was at least as far away strictly nearer.
  lemma CursorApproaches(from: nat, c: nat, k: nat, n: nat)
    requires from < n && c < n && k < n
    requires Dist(from, c, n) <= Dist(from, k, n) && k != c
    ensures Dist(Wrap(c + 1, n), k, n) < Dist(from, k, n)
  {
  }
}
