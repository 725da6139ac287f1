/** The JavaScript string operations the two pages rely on: `toUpperCase`
    on a property read with `|| ''`, and the relational `<` on strings. */
module JsString {
  import opened Wrappers

  /** A property that is expected to hold a string: a falsy value (missing,
      `null`, `''`, ...), a string, or a truthy value that is not a string
      and so has no `toUpperCase`. */
  datatype StringField = Falsy | Text(text: string) | TruthyNonText

  /** `c.toUpperCase()` on the ASCII letters. */
  function UpperChar(c: char): char {
    if 'a' <= c <= 'z' then (c as int - 32) as char else c
  }

  /** No lower-case ASCII letter. */
  predicate IsUpper(s: string) {
    forall i | 0 <= i < |s| :: !('a' <= s[i] <= 'z')
  }

  /** `s.toUpperCase()`: same length, no lower-case letter left, and an
      upper-case string is left as it is. */
  function ToUpper(s: string): (r: string)
    ensures |r| == |s| && IsUpper(r)
    ensures IsUpper(s) ==> r == s
  {
    seq(|s|, i requires 0 <= i < |s| => UpperChar(s[i]))
  }

  /** `(f || '').toUpperCase()`, or `None` when it throws because the value
      is not a string. */
  function UpperOrEmpty(f: StringField): (r: Option<string>)
    ensures r.None? <==> f.TruthyNonText?
    ensures r.Some? ==> IsUpper(r.value)
    ensures r.Some? ==> (r.value == "" <==> f.Falsy? || f == Text(""))
  {
    match f
    case Falsy => Some("")
    case Text(s) => Some(ToUpper(s))
    case TruthyNonText => None
  }

  /** `a < b` on strings: the first differing character decides, and a proper
      prefix comes first. */
  predicate StrLess(a: string, b: string)
    decreases |a|
  {
    |b| > 0 && (|a| == 0 || a[0] < b[0] || (a[0] == b[0] && StrLess(a[1..], b[1..])))
  }

  lemma {:induction false} StrLessIrreflexive(a: string)
    ensures !StrLess(a, a)
    decreases |a|
  {
    if |a| > 0 {
      StrLessIrreflexive(a[1..]);
    }
  }

  lemma {:induction false} StrLessAsymmetric(a: string, b: string)
    ensures StrLess(a, b) ==> !StrLess(b, a)
    decreases |a|
  {
    if |a| > 0 && |b| > 0 && a[0] == b[0] {
      StrLessAsymmetric(a[1..], b[1..]);
    }
  }

  lemma {:induction false} StrLessTransitive(a: string, b: string, c: string)
    requires StrLess(a, b) && StrLess(b, c)
    ensures StrLess(a, c)
    decreases |a|
  {
    if |a| > 0 && a[0] == b[0] && b[0] == c[0] {
      StrLessTransitive(a[1..], b[1..], c[1..]);
    }
  }

  /** Two different strings are always ordered one way or the other. */
  lemma {:induction false} StrLessTotal(a: string, b: string)
    requires a != b
    ensures StrLess(a, b) || StrLess(b, a)
    decreases |a|
  {
    if |a| > 0 && |b| > 0 && a[0] == b[0] {
      assert a == [a[0]] + a[1..] && b == [b[0]] + b[1..];
      StrLessTotal(a[1..], b[1..]);
    }
  }
}
