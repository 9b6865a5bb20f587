/** Strings: the default order, by code unit with a proper prefix first, and lower case of ASCII letters. */
module TextOrder {
  import opened Sorting

  function LowerCase(s: string): string {
    seq(|s|, i requires 0 <= i < |s| => if 'A' <= s[i] <= 'Z' then s[i] - 'A' + 'a' else s[i])
  }

  predicate Before(a: string, b: string) {
    if b == [] then false
    else if a == [] then true
    else a[0] < b[0] || (a[0] == b[0] && Before(a[1..], b[1..]))
  }

  predicate NoLater(a: string, b: string) {
    !Before(b, a)
  }

  lemma {:induction false} Trichotomy(a: string, b: string)
    ensures Before(a, b) || Before(b, a) || a == b
    ensures !(Before(a, b) && Before(b, a))
  {
    if a != [] && b != [] && a[0] == b[0] {
      Trichotomy(a[1..], b[1..]);
      assert a == [a[0]] + a[1..] && b == [b[0]] + b[1..];
    }
  }

  lemma {:induction false} NoLaterTrans(a: string, b: string, c: string)
    requires NoLater(a, b) && NoLater(b, c)
    ensures NoLater(a, c)
  {
    if a != [] && b != [] && c != [] && a[0] == b[0] == c[0] {
      NoLaterTrans(a[1..], b[1..], c[1..]);
    }
  }

  lemma TextIsOrdered()
    ensures TotalPreorder(NoLater)
    ensures forall a, b :: NoLater(a, b) && NoLater(b, a) ==> a == b
  {
    forall a, b
      ensures NoLater(a, b) || NoLater(b, a)
      ensures NoLater(a, b) && NoLater(b, a) ==> a == b
    {
      Trichotomy(a, b);
    }
    forall a, b, c | NoLater(a, b) && NoLater(b, c)
      ensures NoLater(a, c)
    {
      NoLaterTrans(a, b, c);
    }
  }
}
