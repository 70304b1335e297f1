/** `constructSupertypeWithGenericArguments`: the text offered as a fix for one
    immediate supertype. Only one level of type arguments is rendered: each
    argument contributes its constructor name and nothing else. */
module TypeRendering {
  import opened KotlinTypes

  /** The text placed between two argument names. */
  const Separator: string := ", "

  /** The constructor names of the arguments, in order. */
  function ArgCtors(args: seq<KType>): (cs: seq<string>)
  {
    seq(|args|, i requires 0 <= i < |args| => args[i].ctor)
  }

  /** The pieces of `xs`, with `Separator` between neighbours. */
  function Join(xs: seq<string>): (r: string)
  {
    if |xs| == 0 then ""
    else if |xs| == 1 then xs[0]
    else Join(xs[..|xs| - 1]) + Separator + xs[|xs| - 1]
  }

  /** The functional specification of the renderer: the constructor name, then,
      when there are arguments, `<`, their constructor names joined, and `>`. */
  function Render(t: KType): (r: string)
  {
    if |t.args| == 0 then t.ctor
    else t.ctor + "<" + Join(ArgCtors(t.args)) + ">"
  }

  /** Where the `k`-th piece starts in `Join(xs)`: every earlier piece is
      followed by one separator. */
  function Offset(xs: seq<string>, k: nat): (r: nat)
    requires k <= |xs|
  {
    if k == 0 then 0 else Offset(xs, k - 1) + |xs[k - 1]| + |Separator|
  }

  lemma {:induction false} OffsetPrefix(xs: seq<string>, m: nat, k: nat)
    requires k <= m <= |xs|
    ensures Offset(xs[..m], k) == Offset(xs, k)
  {
    if k > 0 {
      OffsetPrefix(xs, m, k - 1);
      assert xs[..m][k - 1] == xs[k - 1];
    }
  }

  /** The joined text ends exactly where the last piece ends: no separator
      follows the last piece. */
  lemma {:induction false} JoinLength(xs: seq<string>)
    requires |xs| > 0
    ensures |Join(xs)| + |Separator| == Offset(xs, |xs|)
  {
    var n := |xs|;
    if n > 1 {
      var init := xs[..n - 1];
      JoinLength(init);
      OffsetPrefix(xs, n - 1, n - 1);
    }
  }

  /** A slice that lies inside `a` is the same in `a + b`. */
  lemma SliceOfPrefix(a: string, b: string, i: nat, j: nat)
    requires i <= j <= |a|
    ensures (a + b)[i..j] == a[i..j]
  {
  }

  /** In `a + m + b`, the characters after `a` are exactly `m`. */
  lemma SliceAfter(a: string, m: string, b: string)
    ensures (a + m + b)[|a|..|a| + |m|] == m
  {
    assert (a + m + b)[|a|..|a| + |m|] == (a + m)[|a|..];
  }

  /** A slice of the middle part of `a + m + b` is the same slice of `m`. */
  lemma SliceOfMiddle(a: string, m: string, b: string, i: nat, j: nat)
    requires i <= j <= |m|
    ensures |a| + j <= |a + m + b|
    ensures (a + m + b)[|a| + i..|a| + j] == m[i..j]
  {
    assert (a + m + b)[|a| + i..|a| + j] == (a + m)[|a| + i..|a| + j];
  }

  /** Piece `k` of the joined text sits at `Offset(xs, k)`. */
  lemma {:induction false} JoinPiece(xs: seq<string>, k: nat)
    requires k < |xs|
    ensures Offset(xs, k) + |xs[k]| <= |Join(xs)|
    ensures Join(xs)[Offset(xs, k)..Offset(xs, k) + |xs[k]|] == xs[k]
  {
    var n := |xs|;
    if n == 1 {
      assert Join(xs) == xs[0];
    } else {
      var init := xs[..n - 1];
      var ji := Join(init);
      assert Join(xs) == ji + (Separator + xs[n - 1]);
      JoinLength(init);
      OffsetPrefix(xs, n - 1, n - 1);
      if k < n - 1 {
        JoinPiece(init, k);
        OffsetPrefix(xs, n - 1, k);
        assert init[k] == xs[k];
        SliceOfMiddle("", ji, Separator + xs[n - 1], Offset(xs, k), Offset(xs, k) + |xs[k]|);
      } else {
        assert Join(xs) == ji + Separator + xs[n - 1];
        SliceOfMiddle(ji + Separator, xs[n - 1], "", 0, |xs[n - 1]|);
      }
    }
  }

  /** Every piece but the last is followed directly by one separator, which
      ends where the next piece starts. With JoinPiece and JoinLength this
      tiles all of `Join(xs)`: the separator is written exactly `|xs| - 1`
      times, only between neighbours. */
  lemma {:induction false} JoinSeparator(xs: seq<string>, k: nat)
    requires k + 1 < |xs|
    ensures Offset(xs, k + 1) <= |Join(xs)|
    ensures Join(xs)[Offset(xs, k) + |xs[k]|..Offset(xs, k + 1)] == Separator
  {
    var n := |xs|;
    var init := xs[..n - 1];
    var ji := Join(init);
    assert Join(xs) == ji + Separator + xs[n - 1];
    JoinLength(init);
    OffsetPrefix(xs, n - 1, k + 1);
    OffsetPrefix(xs, n - 1, k);
    assert init[k] == xs[k];
    if k + 1 < n - 1 {
      JoinSeparator(init, k);
      SliceOfPrefix(ji, Separator + xs[n - 1], Offset(xs, k) + |xs[k]|, Offset(xs, k + 1));
      assert ji + Separator + xs[n - 1] == ji + (Separator + xs[n - 1]);
    } else {
      SliceAfter(ji, Separator, xs[n - 1]);
    }
  }

  /** The frame of a rendered type with arguments: the constructor name and
      `<`, the joined argument names, and `>`, with nothing else. */
  lemma RenderFrame(t: KType)
    requires |t.args| > 0
    ensures var r, cs := Render(t), ArgCtors(t.args);
      && |r| == |t.ctor| + Offset(cs, |cs|)
      && r[..|t.ctor| + 1] == t.ctor + "<"
      && r[|r| - 1] == '>'
  {
    JoinLength(ArgCtors(t.args));
  }

  /** The shape of a rendered type with arguments: after the constructor name
      and `<`, argument `k`'s constructor name sits at its offset; a separator
      follows it when another argument follows, and `>` follows the last. */
  lemma RenderWithArguments(t: KType, k: nat)
    requires k < |t.args|
    ensures var r, cs := Render(t), ArgCtors(t.args);
      var start := |t.ctor| + 1 + Offset(cs, k);
      && start + |cs[k]| < |r|
      && r[start..start + |cs[k]|] == t.args[k].ctor
      && (k + 1 < |cs| ==> |t.ctor| + 1 + Offset(cs, k + 1) < |r|)
      && (k + 1 < |cs| ==> r[start + |cs[k]|..|t.ctor| + 1 + Offset(cs, k + 1)] == Separator)
      && (k + 1 == |cs| ==> start + |cs[k]| == |r| - 1)
  {
    var cs := ArgCtors(t.args);
    var pre := t.ctor + "<";
    var j := Join(cs);
    assert Render(t) == pre + j + ">";
    JoinLength(cs);
    JoinPiece(cs, k);
    if k + 1 < |cs| {
      JoinSeparator(cs, k);
    }
    var off := Offset(cs, k);
    SliceOfMiddle(pre, j, ">", off, off + |cs[k]|);
    if k + 1 < |cs| {
      SliceOfMiddle(pre, j, ">", off + |cs[k]|, Offset(cs, k + 1));
    } else {
      OffsetPrefix(cs, |cs|, k);
    }
  }

  /** A type renders as exactly its constructor name, with no brackets, if
      and only if it has no arguments. */
  lemma RenderNoArguments(t: KType)
    ensures Render(t) == t.ctor <==> |t.args| == 0
  {
    // "Only if": with arguments the result is the constructor name followed
    // by at least `<` and `>`, so it is longer than the name.
  }

  /** Only one level of nesting is rendered: the arguments' own arguments and
      texts never show. */
  lemma RenderOneLevel(a: KType, b: KType)
    requires a.ctor == b.ctor && |a.args| == |b.args|
    requires forall i :: 0 <= i < |a.args| ==> a.args[i].ctor == b.args[i].ctor
    ensures Render(a) == Render(b)
  {
    assert ArgCtors(a.args) == ArgCtors(b.args);
  }

  /** `Map` over `String` and `Int` renders as `Map<String, Int>`. */
  lemma RenderMapExample(s: KType, i: KType, m: KType)
    requires s.ctor == "String" && i.ctor == "Int"
    requires m.ctor == "Map" && m.args == [s, i]
    ensures Render(m) == "Map<String, Int>"
  {
    var cs := ArgCtors(m.args);
    assert cs == ["String", "Int"];
    assert cs[..1] == ["String"];
    assert Join(cs) == "String" + ", " + "Int";
  }

  /** The renderer as the Kotlin code writes it: a string builder that starts with
      the constructor name and, when there are arguments, appends `<`, each
      argument's constructor name followed by a separator unless it is the
      last, and `>`. */
  method ConstructSupertypeWithGenericArguments(t: KType) returns (s: string)
    ensures s == Render(t)
  {
    var typeBuilder := t.ctor;
    var isArgumentsNotEmpty := |t.args| != 0;
    if isArgumentsNotEmpty {
      typeBuilder := typeBuilder + "<";
      ghost var cs := ArgCtors(t.args);
      var index := 0;
      while index < |t.args|
        invariant 0 <= index <= |t.args|
        invariant index == 0 ==> typeBuilder == t.ctor + "<"
        invariant 0 < index < |t.args| ==> typeBuilder == t.ctor + "<" + Join(cs[..index]) + Separator
        invariant index == |t.args| ==> typeBuilder == t.ctor + "<" + Join(cs[..index])
      {
        assert cs[..index + 1][..index] == cs[..index];
        typeBuilder := typeBuilder + t.args[index].ctor;
        if index + 1 < |t.args| {
          typeBuilder := typeBuilder + Separator;
        }
        index := index + 1;
      }
      assert cs[..|t.args|] == cs;
      typeBuilder := typeBuilder + ">";
    }
    s := typeBuilder;
  }
}
