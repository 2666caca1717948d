/** Comparison of strings by code point, as Python orders them. */
module TextOrder {

  predicate TextAtMost(a: string, b: string) {
    if a == [] then true
    else if b == [] then false
    else a[0] < b[0] || (a[0] == b[0] && TextAtMost(a[1..], b[1..]))
  }

  lemma {:induction false} TextTotal(a: string, b: string)
    ensures TextAtMost(a, b) || TextAtMost(b, a)
    ensures TextAtMost(a, b) && TextAtMost(b, a) ==> a == b
  {
    if a != [] && b != [] && a[0] == b[0] {
      TextTotal(a[1..], b[1..]);
      assert a == [a[0]] + a[1..] && b == [b[0]] + b[1..];
    }
  }

  /** One string is at most another when it is a beginning of it, or when at the first place
      at which they differ it has the smaller character. */
  lemma {:induction false} TextIs(a: string, b: string)
    ensures TextAtMost(a, b) <==>
            a <= b || exists k :: 0 <= k < |a| && k < |b| && a[..k] == b[..k] && a[k] < b[k]
  {
    if a != [] && b != [] {
      if a[0] == b[0] { TextIs(a[1..], b[1..]); }
      TextShifts(a, b);
    }
  }

  lemma TextShifts(a: string, b: string)
    requires a != [] && b != []
    ensures a <= b <==> a[0] == b[0] && a[1..] <= b[1..]
    ensures (exists k :: 0 <= k < |a| && k < |b| && a[..k] == b[..k] && a[k] < b[k]) <==>
            || a[0] < b[0]
            || (a[0] == b[0]
                && exists k :: 0 <= k < |a| - 1 && k < |b| - 1 && a[1..][..k] == b[1..][..k] && a[1..][k] < b[1..][k])
  {
    if a[0] < b[0] { assert a[..0] == b[..0]; }
    if k :| 0 <= k < |a| && k < |b| && a[..k] == b[..k] && a[k] < b[k] && k > 0 {
      PrefixShifts(a, b, k);
      assert a[1..][k - 1] == a[k] && b[1..][k - 1] == b[k];
    }
    if k :| 0 <= k < |a| - 1 && k < |b| - 1 && a[0] == b[0] && a[1..][..k] == b[1..][..k] && a[1..][k] < b[1..][k] {
      PrefixShifts(a, b, k + 1);
      assert a[k + 1] < b[k + 1];
    }
  }

  lemma PrefixShifts(a: string, b: string, k: nat)
    requires 0 < k < |a| && k < |b|
    ensures a[..k] == b[..k] <==> a[0] == b[0] && a[1..][..k - 1] == b[1..][..k - 1]
  {
    var x, y := a[1..][..k - 1], b[1..][..k - 1];
    assert a[..k] == [a[0]] + x && b[..k] == [b[0]] + y;
    assert ([a[0]] + x)[1..] == x && ([b[0]] + y)[1..] == y;
  }

  lemma {:induction false} TextTransitive(a: string, b: string, c: string)
    requires TextAtMost(a, b) && TextAtMost(b, c)
    ensures TextAtMost(a, c)
  {
    if a != [] && a[0] == b[0] && b[0] == c[0] {
      TextTransitive(a[1..], b[1..], c[1..]);
    }
  }

  /** The order is linear: any two strings compare, no two different ones tie. */
  lemma TextLinear()
    ensures forall a, b :: TextAtMost(a, b) || TextAtMost(b, a)
    ensures forall a, b :: TextAtMost(a, b) && TextAtMost(b, a) ==> a == b
    ensures forall a, b, c :: TextAtMost(a, b) && TextAtMost(b, c) ==> TextAtMost(a, c)
  {
    forall a, b ensures (TextAtMost(a, b) || TextAtMost(b, a)) && (TextAtMost(a, b) && TextAtMost(b, a) ==> a == b) {
      TextTotal(a, b);
    }
    forall a, b, c | TextAtMost(a, b) && TextAtMost(b, c) ensures TextAtMost(a, c) { TextTransitive(a, b, c); }
  }
}
