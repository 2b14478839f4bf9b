/** Lexical path cleaning, and the prefix test of working directories. */
module Paths {

  predicate IsAbs(p: string) {
    p != "" && p[0] == '/'
  }

  /** The pieces between slashes, empty ones included. */
  function Split(s: string): (r: seq<string>)
    ensures r != [] && forall i :: 0 <= i < |r| ==> '/' !in r[i]
  {
    if s == "" then [""]
    else
      var rest := Split(s[1..]);
      if s[0] == '/' then [""] + rest else [[s[0]] + rest[0]] + rest[1..]
  }

  /** Drops empty pieces and dots, and lets each double dot take the piece before it. */
  function Reduce(pieces: seq<string>, acc: seq<string>, rooted: bool): seq<string>
    decreases |pieces|
  {
    if pieces == [] then acc
    else
      var c, rest := pieces[0], pieces[1..];
      if c == "" || c == "." then Reduce(rest, acc, rooted)
      else if c != ".." then Reduce(rest, acc + [c], rooted)
      else if acc != [] && acc[|acc| - 1] != ".." then Reduce(rest, acc[..|acc| - 1], rooted)
      else Reduce(rest, if rooted then acc else acc + [c], rooted)
  }

  function Components(p: string): seq<string> {
    Reduce(Split(p), [], IsAbs(p))
  }

  function Slashed(cs: seq<string>): string {
    if cs == [] then "" else "/" + cs[0] + Slashed(cs[1..])
  }

  function Render(cs: seq<string>): string {
    if cs == [] then "/" else Slashed(cs)
  }

  /** The shortest equivalent of a path, without looking at the file system. */
  function Clean(p: string): string {
    var cs := Components(p);
    if IsAbs(p) then Render(cs) else if cs == [] then "." else Slashed(cs)[1..]
  }

  predicate PathHasPrefix(path: string, prefix: string) {
    prefix == "/" || path == prefix || prefix + "/" <= path
  }

  /** A piece that names a file or, above a relative path, its parent. */
  predicate Name(c: string) {
    c != "" && c != "." && '/' !in c
  }

  predicate Names(cs: seq<string>, rooted: bool) {
    forall i :: 0 <= i < |cs| ==> Name(cs[i]) && (rooted ==> cs[i] != "..")
  }

  lemma {:induction false} ReduceGivesNames(pieces: seq<string>, acc: seq<string>, rooted: bool)
    requires Names(acc, rooted) && forall i :: 0 <= i < |pieces| ==> '/' !in pieces[i]
    ensures Names(Reduce(pieces, acc, rooted), rooted)
    decreases |pieces|
  {
    if pieces != [] {
      var c, rest := pieces[0], pieces[1..];
      if c == "" || c == "." {
        ReduceGivesNames(rest, acc, rooted);
      } else if c != ".." {
        ReduceGivesNames(rest, acc + [c], rooted);
      } else if acc != [] && acc[|acc| - 1] != ".." {
        ReduceGivesNames(rest, acc[..|acc| - 1], rooted);
      } else {
        ReduceGivesNames(rest, if rooted then acc else acc + [c], rooted);
      }
    }
  }

  lemma {:induction false} ReduceKeepsNames(cs: seq<string>, acc: seq<string>)
    requires Names(cs, true)
    ensures Reduce(cs, acc, true) == acc + cs
    decreases |cs|
  {
    if cs != [] {
      ReduceKeepsNames(cs[1..], acc + [cs[0]]);
      assert acc + [cs[0]] + cs[1..] == acc + cs;
    }
  }

  lemma {:induction false} SplitPut(c: string, rest: string)
    requires '/' !in c
    ensures Split(c + rest) == [c + Split(rest)[0]] + Split(rest)[1..]
  {
    if c == "" {
      assert c + rest == rest && c + Split(rest)[0] == Split(rest)[0];
      assert Split(rest) == [Split(rest)[0]] + Split(rest)[1..];
    } else {
      SplitPut(c[1..], rest);
      assert (c + rest)[1..] == c[1..] + rest && (c + rest)[0] == c[0];
      assert [c[0]] + (c[1..] + Split(rest)[0]) == c + Split(rest)[0];
    }
  }

  lemma {:induction false} SplitSlashed(cs: seq<string>)
    requires Names(cs, true)
    ensures Split(Slashed(cs)) == [""] + cs
    decreases |cs|
  {
    if cs != [] {
      var rest := Slashed(cs[1..]);
      SplitSlashed(cs[1..]);
      SplitPut(cs[0], rest);
      assert Slashed(cs) == "/" + (cs[0] + rest);
      assert Slashed(cs)[1..] == cs[0] + rest;
      assert cs[0] + "" == cs[0];
    }
  }

  /** Components and Render are inverse to each other on lists of names. */
  lemma ComponentsOfRender(cs: seq<string>)
    requires Names(cs, true)
    ensures IsAbs(Render(cs)) && Components(Render(cs)) == cs
  {
    if cs == [] {
      assert Split("/") == [""] + Split("");
      assert Reduce(["", ""], [], true) == Reduce([""], [], true) by {
        assert ["", ""][1..] == [""];
      }
    } else {
      SplitSlashed(cs);
      assert ([""] + cs)[1..] == cs;
      ReduceKeepsNames(cs, []);
      assert [] + cs == cs;
    }
  }

  /** Cleaning an absolute path gives an absolute path that is clean already. */
  lemma CleanIsClean(p: string)
    requires IsAbs(p)
    ensures IsAbs(Clean(p)) && Clean(Clean(p)) == Clean(p)
    ensures Names(Components(p), true) && Clean(p) == Render(Components(p))
  {
    ReduceGivesNames(Split(p), [], true);
    ComponentsOfRender(Components(p));
  }

  lemma {:induction false} SplitOneMore(p: string, c: string)
    requires '/' !in c
    ensures Split(p + "/" + c) == Split(p) + [c]
  {
    if p == "" {
      assert p + "/" + c == "/" + c && ("/" + c)[1..] == c;
      SplitPut(c, "");
      assert c + "" == c;
    } else {
      SplitOneMore(p[1..], c);
      assert (p + "/" + c)[1..] == p[1..] + "/" + c && (p + "/" + c)[0] == p[0];
      if p[0] != '/' {
        assert ([[p[0]] + Split(p[1..])[0]] + Split(p[1..])[1..]) + [c] == [[p[0]] + Split(p[1..])[0]] + (Split(p[1..])[1..] + [c]);
        assert (Split(p[1..]) + [c])[1..] == Split(p[1..])[1..] + [c];
      } else {
        assert ([""] + Split(p[1..])) + [c] == [""] + (Split(p[1..]) + [c]);
      }
    }
  }

  /** Where one more piece leads from the directory with the components `at`, below the root. */
  function Walk(at: seq<string>, c: string): seq<string> {
    if c == "" || c == "." then at
    else if c == ".." then (if at == [] then [] else at[..|at| - 1])
    else at + [c]
  }

  lemma {:induction false} ReduceOneMore(pieces: seq<string>, acc: seq<string>, c: string)
    requires Names(acc, true) && '/' !in c && forall i :: 0 <= i < |pieces| ==> '/' !in pieces[i]
    ensures Reduce(pieces + [c], acc, true) == Walk(Reduce(pieces, acc, true), c)
    decreases |pieces|
  {
    if pieces == [] {
      assert [] + [c] == [c] && [c][1..] == [];
      assert acc != [] ==> acc[|acc| - 1] != "..";
    } else {
      var x, rest := pieces[0], pieces[1..];
      assert (pieces + [c])[0] == x && (pieces + [c])[1..] == rest + [c];
      if x == "" || x == "." {
        ReduceOneMore(rest, acc, c);
      } else if x != ".." {
        ReduceOneMore(rest, acc + [x], c);
      } else if acc != [] {
        assert acc[|acc| - 1] != "..";
        ReduceOneMore(rest, acc[..|acc| - 1], c);
      } else {
        ReduceOneMore(rest, acc, c);
      }
    }
  }

  function Child(dir: string, name: string): string {
    (if dir == "/" then "" else dir) + "/" + name
  }

  /** Cleaning walks the tree: from the root, an empty piece or a dot stays, a double dot goes up
      and stays at the root, and any other piece goes down. */
  lemma CleanWalks(p: string, c: string)
    requires IsAbs(p) && '/' !in c
    ensures Components("/") == [] && Clean("/") == "/"
    ensures Components(p + "/" + c) == Walk(Components(p), c) && Clean(p + "/" + c) == Render(Walk(Components(p), c))
    ensures c == ".." ==>
      (if Clean(p) == "/" then Clean(p + "/" + c) == "/"
       else exists name :: Name(name) && Clean(p) == Child(Clean(p + "/" + c), name))
    ensures Name(c) && c != ".." ==> Clean(p + "/" + c) == Child(Clean(p), c)
  {
    ComponentsOfRender([]);
    SplitOneMore(p, c);
    ReduceOneMore(Split(p), [], c);
    CleanIsClean(p);
    var cs := Components(p);
    hide Components, Reduce, Split;
    assert IsAbs(p + "/" + c) && Clean(p + "/" + c) == Render(Walk(cs, c));
    if cs != [] {
      NotJustSlash(cs);
      if c == ".." {
        SlashedLast(cs[..|cs| - 1], cs[|cs| - 1]);
        assert cs[..|cs| - 1] + [cs[|cs| - 1]] == cs;
        assert Name(cs[|cs| - 1]);
        if |cs| > 1 {
          NotJustSlash(cs[..|cs| - 1]);
        }
        assert Clean(p) == Child(Render(cs[..|cs| - 1]), cs[|cs| - 1]);
      }
    }
    if Name(c) && c != ".." {
      SlashedLast(cs, c);
    }
  }

  lemma {:induction false} SlashedLast(cs: seq<string>, c: string)
    ensures Slashed(cs + [c]) == Slashed(cs) + "/" + c
  {
    if cs == [] {
      assert [] + [c] == [c] && [c][1..] == [];
    } else {
      SlashedLast(cs[1..], c);
      assert (cs + [c])[1..] == cs[1..] + [c] && (cs + [c])[0] == cs[0];
    }
  }

  lemma CleanRelative(p: string)
    requires !IsAbs(p)
    ensures Clean(p) != "" && !IsAbs(Clean(p))
  {
    ReduceGivesNames(Split(p), [], false);
    var cs := Components(p);
    if cs != [] {
      assert Name(cs[0]);
      assert Slashed(cs)[1..] == cs[0] + Slashed(cs[1..]);
      assert Slashed(cs)[1..][0] == cs[0][0];
    }
  }

  /** What follows a name in a rendered path starts with a slash. */
  predicate Tail(s: string) {
    s == "" || s[0] == '/'
  }

  /** A name cannot reach over the slash that ends another. */
  lemma HeadNotLonger(a: string, x: string, b: string, y: string)
    requires '/' !in b && Tail(x) && |b| > |a|
    ensures !(b + y <= a + x)
  {
    if x != "" {
      assert (a + x)[|a|] == '/' && (b + y)[|a|] == b[|a|];
    }
  }

  lemma HeadNotShorter(a: string, x: string, b: string, y: string)
    requires '/' !in a && Tail(y) && y != "" && |b| < |a|
    ensures !(b + y <= a + x)
  {
    assert (b + y)[|b|] == '/' && (a + x)[|b|] == a[|b|];
  }

  lemma SameHead(a: string, x: string, b: string, y: string)
    requires '/' !in a && '/' !in b && Tail(x) && Tail(y)
    requires y != "" || |a| == |b|
    ensures b + y <= a + x <==> b == a && y <= x
  {
    if |b| > |a| {
      HeadNotLonger(a, x, b, y);
    } else if |b| < |a| {
      HeadNotShorter(a, x, b, y);
    } else {
      assert (a + x)[..|a|] == a && (b + y)[..|a|] == b;
      assert (a + x)[|a|..] == x && (b + y)[|a|..] == y;
      if b + y <= a + x {
        assert (a + x)[..|b + y|] == b + y;
        assert (a + x)[..|b + y|][..|a|] == a;
        assert x[..|y|] == (a + x)[..|b + y|][|a|..];
      }
    }
  }

  lemma SameWhole(a: string, x: string, b: string, y: string)
    requires '/' !in a && '/' !in b && Tail(x) && Tail(y)
    ensures b + y == a + x <==> b == a && y == x
  {
    if |b| > |a| {
      HeadNotLonger(a, x, b, y);
    } else if |b| < |a| {
      HeadNotLonger(b, y, a, x);
    } else {
      assert (a + x)[..|a|] == a && (b + y)[..|a|] == b;
      assert (a + x)[|a|..] == x && (b + y)[|a|..] == y;
    }
  }

  lemma {:induction false} SlashedPrefix(cs: seq<string>, ds: seq<string>)
    requires Names(cs, true) && Names(ds, true)
    ensures Slashed(ds) == Slashed(cs) || Slashed(ds) + "/" <= Slashed(cs) <==> ds <= cs
    decreases |ds|
  {
    if ds == [] {
      assert Slashed(ds) + "/" == "/";
      assert cs != [] ==> Slashed(cs)[0] == '/';
    } else if cs == [] {
      assert Slashed(cs) == "";
    } else {
      var c, d, x, y := cs[0], ds[0], Slashed(cs[1..]), Slashed(ds[1..]);
      SlashedPrefix(cs[1..], ds[1..]);
      SameWhole(c, x, d, y);
      SameHead(c, x, d, y + "/");
      SlashedHead(cs);
      SlashedHead(ds);
      hide Slashed, Names;
      OffSlash(c + x, d + y);
      assert d + (y + "/") == d + y + "/";
      HeadPrefix(cs, ds);
    }
  }

  lemma SlashedHead(cs: seq<string>)
    requires cs != []
    ensures Slashed(cs) == "/" + (cs[0] + Slashed(cs[1..]))
  {
    assert "/" + cs[0] + Slashed(cs[1..]) == "/" + (cs[0] + Slashed(cs[1..]));
  }

  lemma HeadPrefix(cs: seq<string>, ds: seq<string>)
    requires cs != [] && ds != []
    ensures ds <= cs <==> ds[0] == cs[0] && ds[1..] <= cs[1..]
  {
    assert cs == [cs[0]] + cs[1..] && ds == [ds[0]] + ds[1..];
    if ds <= cs {
      assert ds[1..] == cs[..|ds|][1..] == cs[1..][..|ds| - 1];
    }
  }

  lemma OffSlash(s: string, t: string)
    ensures "/" + t == "/" + s <==> t == s
    ensures ("/" + t) + "/" <= "/" + s <==> t + "/" <= s
  {
    assert ("/" + s)[1..] == s && ("/" + t)[1..] == t && (("/" + t) + "/")[1..] == t + "/";
    assert ("/" + t) + "/" == "/" + (t + "/");
    if t + "/" <= s {
      assert ("/" + s)[..|t| + 2] == "/" + s[..|t| + 1];
    }
    if ("/" + t) + "/" <= "/" + s {
      assert s[..|t| + 1] == ("/" + s)[..|t| + 2][1..];
    }
  }

  /** On clean absolute paths the string test is the prefix order of the component lists. */
  lemma PrefixIsComponentPrefix(path: string, prefix: string)
    requires IsAbs(path) && Clean(path) == path && IsAbs(prefix) && Clean(prefix) == prefix
    ensures PathHasPrefix(path, prefix) <==> Components(prefix) <= Components(path)
  {
    hide Components, Reduce;
    CleanIsClean(path);
    CleanIsClean(prefix);
    var cs, ds := Components(path), Components(prefix);
    SlashedPrefix(cs, ds);
    if ds != [] {
      NotJustSlash(ds);
      if cs == [] {
        assert |prefix| > 1;
      }
    }
  }

  lemma NotJustSlash(ds: seq<string>)
    requires Names(ds, true) && ds != []
    ensures |Slashed(ds)| > 1
  {
    assert Name(ds[0]);
  }
}
