/** JavaScript's `<` on two strings: lexicographic order, character by character,
    a proper prefix coming first. Snapshot and record dates are compared this way. */
module DateOrder {

  predicate DateLess(a: string, b: string)
    ensures DateLess(a, b) ==> a != b
    ensures |a| < |b| && a == b[..|a|] ==> DateLess(a, b)
  {
    if |a| == 0 then |b| > 0
    else if |b| == 0 then false
    else if a[0] != b[0] then a[0] < b[0]
    else DateLess(a[1..], b[1..])
  }

  /** No date is before itself; this follows from `DateLess`'s own contract. */
  lemma LessIrreflexive(a: string)
    ensures !DateLess(a, a)
  {
  }

  lemma {:induction false} LessTransitive(a: string, b: string, c: string)
    requires DateLess(a, b) && DateLess(b, c)
    ensures DateLess(a, c)
  {
    if |a| > 0 && |b| > 0 && |c| > 0 && a[0] == b[0] && b[0] == c[0] {
      LessTransitive(a[1..], b[1..], c[1..]);
    }
  }

  /** Two different strings are always ordered one way or the other. */
  lemma {:induction false} LessTotal(a: string, b: string)
    ensures a == b || DateLess(a, b) || DateLess(b, a)
  {
    if |a| > 0 && |b| > 0 && a[0] == b[0] {
      LessTotal(a[1..], b[1..]);
      if a[1..] == b[1..] {
        assert a == [a[0]] + a[1..] && b == [b[0]] + b[1..];
      }
    }
  }

  /** Two strings neither of which is before the other are equal. */
  lemma NeitherLessIsEqual(a: string, b: string)
    requires !DateLess(a, b) && !DateLess(b, a)
    ensures a == b
  {
    LessTotal(a, b);
  }

  lemma LessAsymmetric(a: string, b: string)
    requires DateLess(a, b)
    ensures !DateLess(b, a)
  {
    if DateLess(b, a) {
      LessTransitive(a, b, a);
      LessIrreflexive(a);
    }
  }

  /** "Not later than", the negation of `>`, is transitive. */
  lemma NotLaterTransitive(a: string, b: string, c: string)
    requires !DateLess(b, a) && !DateLess(c, b)
    ensures !DateLess(c, a)
  {
    LessTotal(a, b);
    LessTotal(b, c);
    if a != b && b != c {
      LessTransitive(a, b, c);
      LessAsymmetric(a, c);
    } else if a != b {
      LessAsymmetric(a, b);
    } else if b != c {
      LessAsymmetric(b, c);
    } else {
      LessIrreflexive(a);
    }
  }

  /** A list in ascending date order (ties allowed), as the price and index charts expect. */
  ghost predicate Chronological<T>(s: seq<T>, date: T -> string) {
    forall i, j :: 0 <= i < j < |s| ==> !DateLess(date(s[j]), date(s[i]))
  }

  /** Prepending an older page whose last date is not after the current first date
      keeps the series in ascending order. */
  lemma PrependKeepsChronological<T>(older: seq<T>, prev: seq<T>, date: T -> string)
    requires Chronological(older, date) && Chronological(prev, date)
    requires |older| > 0 && |prev| > 0 ==> !DateLess(date(prev[0]), date(older[|older| - 1]))
    ensures Chronological(older + prev, date)
  {
    var s := older + prev;
    forall i, j | 0 <= i < j < |s|
      ensures !DateLess(date(s[j]), date(s[i]))
    {
      if i < |older| <= j {
        var last := |older| - 1;
        var k := j - |older|;
        LessIrreflexive(date(older[i]));
        LessIrreflexive(date(prev[k]));
        NotLaterTransitive(date(older[i]), date(older[last]), date(prev[0]));
        NotLaterTransitive(date(older[i]), date(prev[0]), date(prev[k]));
      }
    }
  }
}
