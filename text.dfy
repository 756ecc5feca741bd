/** String operations the directory client relies on, stated over `seq<char>`. */
module Text {

  /** Substring containment, the `t in s` test on two strings. */
  predicate Contains(s: string, t: string) {
    exists i :: 0 <= i <= |s| - |t| && OccursAt(s, t, i)
  }

  /** `t` occurs in `s` starting at position `i`. */
  predicate OccursAt(s: string, t: string, i: nat) {
    i + |t| <= |s| && s[i..i + |t|] == t
  }

  /** `s.startswith(p)`, also the meaning of an anchored `re.match` on a literal prefix. */
  predicate StartsWith(s: string, p: string) {
    |p| <= |s| && s[..|p|] == p
  }

  predicate IsAsciiDigit(c: char) {
    '0' <= c <= '9'
  }

  /** `sep.join(xs)`. */
  function Join(xs: seq<string>, sep: string): string
    decreases |xs|
  {
    if |xs| == 0 then ""
    else if |xs| == 1 then xs[0]
    else xs[0] + sep + Join(xs[1..], sep)
  }

  /** The one-character strings met when iterating over a string. */
  function Chars(s: string): seq<string> {
    seq(|s|, i requires 0 <= i < |s| => [s[i]])
  }

  /** The text before the first comma (all of `s` when it has none). */
  function BeforeComma(s: string): (r: string)
    ensures StartsWith(s, r) && ',' !in r
    ensures |r| < |s| ==> s[|r|] == ','
  {
    if s == [] then []
    else if s[0] == ',' then []
    else [s[0]] + BeforeComma(s[1..])
  }

  /** The first position at or after `from` where `t` occurs in `s`. */
  function FindFrom(s: string, t: string, from: nat): (r: Option<nat>)
    requires |t| > 0
    ensures r.Some? ==> from <= r.value && OccursAt(s, t, r.value)
    ensures r.Some? ==> forall j :: from <= j < r.value ==> !OccursAt(s, t, j)
    ensures r.None? ==> forall j :: from <= j ==> !OccursAt(s, t, j)
    decreases |s| - from
  {
    if from + |t| > |s| then None
    else if OccursAt(s, t, from) then Some(from)
    else FindFrom(s, t, from + 1)
  }

  datatype Option<+T> = None | Some(value: T)

  /** Every character inside an occurrence of `t` is a character of `t`. */
  lemma CharInWindow(s: string, t: string, i: nat, p: nat)
    requires OccursAt(s, t, i) && i <= p < i + |t|
    ensures s[p] in t
  {
    assert s[p] == s[i..i + |t|][p - i];
  }

  /** Occurrences on either side of a character that `t` does not hold are the only ones. */
  lemma ContainsAround(a: string, c: char, b: string, t: string)
    requires c !in t
    ensures Contains(a + [c] + b, t) <==> Contains(a, t) || Contains(b, t)
  {
    if Contains(a + [c] + b, t) {
      OccurrenceSide(a, c, b, t);
    }
    if Contains(a, t) {
      var s := a + [c] + b;
      var i :| 0 <= i <= |a| - |t| && OccursAt(a, t, i);
      assert s[i..i + |t|] == a[i..i + |t|];
      assert OccursAt(s, t, i);
    }
    if Contains(b, t) {
      var s := a + [c] + b;
      var j :| 0 <= j <= |b| - |t| && OccursAt(b, t, j);
      var i := |a| + 1 + j;
      assert s[|a| + 1..] == b;
      assert s[i..i + |t|] == s[|a| + 1..][j..j + |t|];
      assert OccursAt(s, t, i);
    }
  }

  /** An occurrence in `a + [c] + b` lies wholly in `a` or wholly in `b`. */
  lemma OccurrenceSide(a: string, c: char, b: string, t: string)
    requires c !in t && Contains(a + [c] + b, t)
    ensures Contains(a, t) || Contains(b, t)
  {
    var s := a + [c] + b;
    var i :| 0 <= i <= |s| - |t| && OccursAt(s, t, i);
    if i + |t| <= |a| {
      assert a[i..i + |t|] == s[i..i + |t|];
      assert OccursAt(a, t, i);
    } else if i > |a| {
      var j := i - |a| - 1;
      assert s[|a| + 1..] == b;
      assert b[j..j + |t|] == s[i..i + |t|];
      assert OccursAt(b, t, j);
    } else {
      CharInWindow(s, t, i, |a|);
      assert false;
    }
  }

  /** A space-free, non-empty word occurs in the space-joined list exactly when it occurs in one element. */
  lemma {:induction false} ContainsJoin(xs: seq<string>, t: string)
    requires |t| > 0 && ' ' !in t
    ensures Contains(Join(xs, " "), t) <==> exists k :: 0 <= k < |xs| && Contains(xs[k], t)
    decreases |xs|
  {
    if |xs| == 1 {
      assert Join(xs, " ") == xs[0];
    } else if |xs| > 1 {
      var rest := xs[1..];
      ContainsJoin(rest, t);
      assert Join(xs, " ") == xs[0] + [' '] + Join(rest, " ");
      ContainsAround(xs[0], ' ', Join(rest, " "), t);
      if exists k :: 0 <= k < |rest| && Contains(rest[k], t) {
        var k :| 0 <= k < |rest| && Contains(rest[k], t);
        assert xs[k + 1] == rest[k];
      }
      if exists k :: 0 <= k < |xs| && Contains(xs[k], t) {
        var k :| 0 <= k < |xs| && Contains(xs[k], t);
        if k > 0 {
          assert rest[k - 1] == xs[k];
        }
      }
    }
  }
}
