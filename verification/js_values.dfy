/**
 * The fragment of JavaScript value semantics that the rule interpreter relies on:
 * strict equality, truthiness and the relational operator `<` on strings and numbers.
 */
module JsValues {

  /** A value that can reach a rule comparison: a string, a number, or `undefined`. */
  datatype Value = Str(s: string) | Num(n: int) | Undef

  /** JavaScript truthiness: the empty string, `0` and `undefined` are falsy. */
  predicate Truthy(v: Value) {
    match v
    case Str(s) => |s| > 0
    case Num(n) => n != 0
    case Undef => false
  }

  /**
   * JavaScript `<` on two strings: character-wise lexicographic order, in which a proper
   * prefix is smaller. Characters here are Unicode scalar values, whereas JavaScript
   * compares UTF-16 code units. Dafny's own `<` on sequences means "proper prefix" only.
   */
  predicate LexLess(a: string, b: string)
    decreases |a|
  {
    if |a| == 0 then |b| > 0
    else if |b| == 0 then false
    else a[0] < b[0] || (a[0] == b[0] && LexLess(a[1..], b[1..]))
  }

  /** The textbook definition of lexicographic order, independent of LexLess. */
  ghost predicate LexLessSpec(a: string, b: string) {
    || (|a| < |b| && a == b[..|a|])
    || exists k :: 0 <= k < |a| && k < |b| && a[..k] == b[..k] && a[k] < b[k]
  }

  lemma {:induction false} LexLessMatchesSpec(a: string, b: string)
    ensures LexLess(a, b) <==> LexLessSpec(a, b)
    decreases |a|
  {
    if |a| == 0 || |b| == 0 {
      if |a| == 0 && |b| > 0 {
        assert a == b[..|a|];
      }
    } else {
      LexLessMatchesSpec(a[1..], b[1..]);
      if LexLess(a, b) {
        if a[0] < b[0] {
          assert a[..0] == b[..0];
        } else if |a[1..]| < |b[1..]| && a[1..] == b[1..][..|a[1..]|] {
          assert a == [a[0]] + a[1..];
          assert b[..|a|] == [b[0]] + b[1..][..|a[1..]|];
        } else {
          var k :| 0 <= k < |a[1..]| && k < |b[1..]| && a[1..][..k] == b[1..][..k] && a[1..][k] < b[1..][k];
          assert a[..k + 1] == [a[0]] + a[1..][..k];
          assert b[..k + 1] == [b[0]] + b[1..][..k];
          assert a[k + 1] < b[k + 1];
        }
      }
      if LexLessSpec(a, b) {
        if |a| < |b| && a == b[..|a|] {
          assert a[0] == b[0];
          assert a[1..] == b[1..][..|a[1..]|];
        } else {
          var k :| 0 <= k < |a| && k < |b| && a[..k] == b[..k] && a[k] < b[k];
          if k > 0 {
            assert a[0] == a[..k][0] == b[..k][0] == b[0];
            assert a[1..][..k - 1] == a[..k][1..];
            assert b[1..][..k - 1] == b[..k][1..];
            assert a[1..][k - 1] < b[1..][k - 1];
          }
        }
      }
    }
  }

  lemma {:induction false} LexLessIrreflexive(a: string)
    ensures !LexLess(a, a)
    decreases |a|
  {
    if |a| > 0 {
      LexLessIrreflexive(a[1..]);
    }
  }

  lemma {:induction false} LexLessAsymmetric(a: string, b: string)
    requires LexLess(a, b)
    ensures !LexLess(b, a)
    decreases |a|
  {
    if |a| > 0 && a[0] == b[0] {
      LexLessAsymmetric(a[1..], b[1..]);
    }
  }

  lemma {:induction false} LexLessTransitive(a: string, b: string, c: string)
    requires LexLess(a, b) && LexLess(b, c)
    ensures LexLess(a, c)
    decreases |a|
  {
    if |a| > 0 && a[0] == b[0] && b[0] == c[0] {
      LexLessTransitive(a[1..], b[1..], c[1..]);
    }
  }

  lemma {:induction false} LexLessTotal(a: string, b: string)
    requires a != b
    ensures LexLess(a, b) || LexLess(b, a)
    decreases |a|
  {
    if |a| > 0 && |b| > 0 && a[0] == b[0] {
      assert a == [a[0]] + a[1..] && b == [b[0]] + b[1..];
      LexLessTotal(a[1..], b[1..]);
    }
  }

  /**
   * The pairs on which this model defines `<`: two strings, two numbers, or any pair
   * with `undefined`. A number compared with a string is coerced by JavaScript and
   * is not modelled.
   */
  predicate Comparable(a: Value, b: Value) {
    a.Undef? || b.Undef? || (a.Str? && b.Str?) || (a.Num? && b.Num?)
  }

  /** JavaScript `a < b`; any comparison with `undefined` is false. */
  function JsLess(a: Value, b: Value): (r: bool)
    requires Comparable(a, b)
    ensures r ==> !a.Undef? && !b.Undef?
    ensures a.Str? && b.Str? ==> (r <==> LexLessSpec(a.s, b.s))
    ensures a.Num? && b.Num? ==> (r <==> a.n < b.n)
  {
    match (a, b)
    case (Str(x), Str(y)) => LexLessMatchesSpec(x, y); LexLess(x, y)
    case (Num(x), Num(y)) => x < y
    case _ => false
  }

  /** On two defined values of the same type, JavaScript `<` is a strict total order. */
  lemma JsLessTrichotomy(a: Value, b: Value)
    requires (a.Str? && b.Str?) || (a.Num? && b.Num?)
    ensures JsLess(a, b) || a == b || JsLess(b, a)
    ensures !(JsLess(a, b) && JsLess(b, a))
    ensures a == b ==> !JsLess(a, b)
  {
    if a.Str? {
      if a != b {
        LexLessTotal(a.s, b.s);
      } else {
        LexLessIrreflexive(a.s);
      }
      if LexLess(a.s, b.s) {
        LexLessAsymmetric(a.s, b.s);
      }
    }
  }

  lemma JsLessTransitive(a: Value, b: Value, c: Value)
    requires Comparable(a, b) && Comparable(b, c) && Comparable(a, c)
    requires JsLess(a, b) && JsLess(b, c)
    ensures JsLess(a, c)
  {
    if a.Str? {
      LexLessTransitive(a.s, b.s, c.s);
    }
  }
}
