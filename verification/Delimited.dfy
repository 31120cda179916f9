/** Strings built by joining fields with a delimiter character, and when the fields can be read back.
    Permission strings, cache keys, signed messages and audit rows are all built this way. */
module Delimited {

  predicate Free(d: char, s: string) {
    d !in s
  }

  function Join(d: char, fields: seq<string>): string
    requires fields != []
  {
    if |fields| == 1 then fields[0] else fields[0] + [d] + Join(d, fields[1..])
  }

  /** `longer` starts with `shorter` followed by a delimiter. */
  predicate Extends(d: char, longer: string, shorter: string) {
    shorter + [d] <= longer
  }

  /** The text before the first delimiter and the text after it are both determined. */
  lemma SplitFirst(d: char, a: string, x: string, b: string, y: string)
    requires Free(d, a) && Free(d, b)
    requires a + [d] + x == b + [d] + y
    ensures a == b && x == y
  {
    var s := a + [d] + x;
    assert s[|a|] == d && s[|b|] == d;
    assert forall i | 0 <= i < |a| :: s[i] == a[i];
    assert forall i | 0 <= i < |b| :: s[i] == b[i];
    assert a == s[..|a|] && b == s[..|b|];
    assert x == s[|a| + 1..] && y == s[|b| + 1..];
  }

  /** Joining is injective on delimiter-free fields, even when the number of fields is not known. */
  lemma {:induction false} JoinInjective(d: char, fs: seq<string>, gs: seq<string>)
    requires fs != [] && gs != []
    requires forall f | f in fs :: Free(d, f)
    requires forall g | g in gs :: Free(d, g)
    requires Join(d, fs) == Join(d, gs)
    ensures fs == gs
  {
    assert Free(d, fs[0]) && Free(d, gs[0]);
    assert |fs| > 1 ==> Join(d, fs)[|fs[0]|] == d;
    assert |gs| > 1 ==> Join(d, gs)[|gs[0]|] == d;
    if |fs| == 1 {
      assert gs == [gs[0]];
    } else {
      SplitFirst(d, fs[0], Join(d, fs[1..]), gs[0], Join(d, gs[1..]));
      JoinInjective(d, fs[1..], gs[1..]);
      assert fs == [fs[0]] + fs[1..] && gs == [gs[0]] + gs[1..];
    }
  }

  /** A joined string has one delimiter between fields, and those inside them. */
  lemma {:induction false} JoinCount(d: char, fs: seq<string>)
    requires fs != []
    ensures multiset(Join(d, fs))[d] >= |fs| - 1
    ensures multiset(Join(d, fs))[d] == |fs| - 1 <==> forall f | f in fs :: Free(d, f)
  {
    if |fs| > 1 {
      JoinCount(d, fs[1..]);
      assert fs == [fs[0]] + fs[1..];
      assert multiset(Join(d, fs)) == multiset(fs[0]) + multiset([d]) + multiset(Join(d, fs[1..]));
      assert multiset(fs[0])[d] == 0 <==> Free(d, fs[0]);
    } else {
      assert fs == [fs[0]];
      assert multiset(fs[0])[d] == 0 <==> Free(d, fs[0]);
    }
  }

  /** Delimiter-free fields can be told from any others of the same number. */
  lemma JoinInjectiveFixed(d: char, fs: seq<string>, gs: seq<string>)
    requires fs != [] && |fs| == |gs| && Join(d, fs) == Join(d, gs)
    requires forall f | f in fs :: Free(d, f)
    ensures fs == gs
  {
    JoinCount(d, fs);
    JoinCount(d, gs);
    JoinInjective(d, fs, gs);
  }

  /** A delimiter inside a field can be taken for the one next to it. */
  lemma {:induction false} ShiftDelimiter(d: char, pre: seq<string>, a: string, x: string, y: string, post: seq<string>)
    ensures Join(d, pre + [a + [d] + x, y] + post) == Join(d, pre + [a, x + [d] + y] + post)
  {
    var fs, gs := pre + [a + [d] + x, y] + post, pre + [a, x + [d] + y] + post;
    if pre == [] {
      assert fs[1..] == [y] + post && gs[1..] == [x + [d] + y] + post;
      if post == [] {
        assert a + [d] + x + [d] + y == a + [d] + (x + [d] + y);
      } else {
        assert fs[1..][1..] == post && gs[1..][1..] == post;
        var rest := Join(d, post);
        assert Join(d, fs[1..]) == y + [d] + rest && Join(d, gs[1..]) == x + [d] + y + [d] + rest;
        assert a + [d] + x + [d] + (y + [d] + rest) == a + [d] + (x + [d] + y + [d] + rest);
      }
    } else {
      ShiftDelimiter(d, pre[1..], a, x, y, post);
      assert fs[1..] == pre[1..] + [a + [d] + x, y] + post;
      assert gs[1..] == pre[1..] + [a, x + [d] + y] + post;
    }
  }

  /** Two first fields can be followed by tails that make the same string out of different pairs
      exactly when one of them extends the other at a delimiter. */
  lemma CollisionIff(d: char, r1: string, r2: string)
    ensures (exists a1: string, a2: string :: (r1, a1) != (r2, a2) && r1 + [d] + a1 == r2 + [d] + a2)
       <==> (Extends(d, r1, r2) || Extends(d, r2, r1))
  {
    if a1: string, a2: string :| (r1, a1) != (r2, a2) && r1 + [d] + a1 == r2 + [d] + a2 {
      CollisionExtends(d, r1, a1, r2, a2);
    }
    if Extends(d, r1, r2) {
      ExtendsCollides(d, r1, r2);
    }
    if Extends(d, r2, r1) {
      ExtendsCollides(d, r2, r1);
      var s := r2[|r1| + 1..];
      assert r2 + [d] + [] == r1 + [d] + (s + [d]);
      assert (r1, s + [d]) != (r2, []);
    }
  }

  lemma CollisionExtends(d: char, r1: string, a1: string, r2: string, a2: string)
    requires (r1, a1) != (r2, a2) && r1 + [d] + a1 == r2 + [d] + a2
    ensures Extends(d, r1, r2) || Extends(d, r2, r1)
  {
    var s := r1 + [d] + a1;
    assert r1 == s[..|r1|] && r2 == s[..|r2|];
    assert a1 == s[|r1| + 1..] && a2 == s[|r2| + 1..];
    if |r2| < |r1| {
      assert r2 + [d] == s[..|r2| + 1] == r1[..|r2| + 1];
    } else {
      assert r1 + [d] == s[..|r1| + 1] == r2[..|r1| + 1];
    }
  }

  lemma ExtendsHasDelimiter(d: char, longer: string, shorter: string)
    requires Extends(d, longer, shorter)
    ensures d in longer && |longer| > |shorter|
  {
    assert longer[|shorter|] == d;
  }

  lemma ExtendsCollides(d: char, longer: string, shorter: string)
    requires Extends(d, longer, shorter)
    ensures exists a1: string, a2: string ::
      (longer, a1) != (shorter, a2) && longer + [d] + a1 == shorter + [d] + a2
  {
    var s := longer[|shorter| + 1..];
    assert longer == shorter + [d] + s;
    assert longer + [d] + [] == shorter + [d] + (s + [d]);
    assert (longer, "") != (shorter, s + [d]);
  }
}
