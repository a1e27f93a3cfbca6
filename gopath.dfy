/**
  The slash-separated path functions of Go's `path` package that the
  request URL is built with: `Join` and the lexical `Clean` it applies
  (the rules of Pike's "Lexical File Names in Plan 9").

  A path is split at every '/' into elements; `Clean` drops empty and "."
  elements, lets ".." cancel the element before it (at the root it is
  dropped, in a relative path it is kept when nothing is left to cancel)
  and joins what remains again.
*/
module GoPath {

  /** A path read so far: the finished elements and the one still open. */
  datatype Pieces = Pieces(done: seq<string>, open: string)

  /** Reads `p` from left to right: a '/' closes the open element. */
  function Scan(p: string): Pieces
    decreases |p|
  {
    if p == [] then Pieces([], [])
    else
      var r := Scan(p[..|p| - 1]);
      if p[|p| - 1] == '/' then Pieces(r.done + [r.open], [])
      else Pieces(r.done, r.open + [p[|p| - 1]])
  }

  /** The elements of `p`: the texts between its separators, in order. */
  function Split(p: string): (elems: seq<string>) {
    Scan(p).done + [Scan(p).open]
  }

  /** The elements `elems` written out with one '/' between neighbours. */
  function JoinElems(elems: seq<string>): string
    decreases |elems|
  {
    if elems == [] then []
    else if |elems| == 1 then elems[0]
    else JoinElems(elems[..|elems| - 1]) + "/" + elems[|elems| - 1]
  }

  predicate NoSlash(s: string) {
    forall i :: 0 <= i < |s| ==> s[i] != '/'
  }

  predicate AllNoSlash(elems: seq<string>) {
    forall i :: 0 <= i < |elems| ==> NoSlash(elems[i])
  }

  /** An element that survives cleaning unchanged: a name or "..". */
  predicate Kept(e: string) {
    e != "" && e != "." && NoSlash(e)
  }

  /** An ordinary name: kept, and not "..". */
  predicate Plain(e: string) {
    Kept(e) && e != ".."
  }

  /**
    The stack of elements left once `elems` has been cleaned: only kept
    elements, ".." only in a relative path and only in front of every name.
  */
  predicate Normal(rooted: bool, elems: seq<string>) {
    forall i :: 0 <= i < |elems| ==>
      Kept(elems[i]) &&
      (elems[i] == ".." ==> !rooted && forall j :: 0 <= j < i ==> elems[j] == "..")
  }

  /** One element `e` applied to the stack `st` of elements kept so far. */
  function Step(rooted: bool, st: seq<string>, e: string): seq<string> {
    if e == "" || e == "." then st
    else if e == ".." then
      if st != [] && st[|st| - 1] != ".." then st[..|st| - 1]
      else if rooted then st
      else st + [".."]
    else st + [e]
  }

  /** The stack left after applying every element of `elems` from left to right. */
  function Resolve(rooted: bool, elems: seq<string>): seq<string>
    decreases |elems|
  {
    if elems == [] then []
    else Step(rooted, Resolve(rooted, elems[..|elems| - 1]), elems[|elems| - 1])
  }

  /** Go's `path.Clean`: the shortest path lexically equivalent to `p`. It is
      never empty, and it is rooted exactly when `p` is. */
  function Clean(p: string): (r: string)
    ensures r != ""
    ensures p != "" ==> (r[0] == '/' <==> p[0] == '/')
  {
    if p == [] then "."
    else
      var rooted := p[0] == '/';
      var body := JoinElems(Resolve(rooted, Split(p)));
      SplitElemsNoSlash(p);
      ResolveHead(rooted, Split(p));
      if rooted then "/" + body
      else if body == [] then "."
      else body
  }

  /** Go's `path.Join` of two elements: empty elements are skipped, the rest
      joined with '/' and cleaned; nothing to join gives "". */
  function Join(a: string, b: string): (r: string)
    ensures r == "" <==> a == "" && b == ""
    ensures r != "" ==> (r[0] == '/' <==> (a + b)[0] == '/')
  {
    if a == [] && b == [] then []
    else if a == [] then Clean(b)
    else Clean(a + "/" + b)
  }

  // ---------------------------------------------------------------------
  // Splitting and joining elements are inverse to each other.

  lemma {:induction false} ScanNoSlash(p: string)
    ensures AllNoSlash(Scan(p).done) && NoSlash(Scan(p).open)
    decreases |p|
  {
    if p != [] {
      ScanNoSlash(p[..|p| - 1]);
    }
  }

  lemma SplitElemsNoSlash(p: string)
    ensures AllNoSlash(Split(p))
  {
    ScanNoSlash(p);
  }

  /** One more character either closes the open element or extends it. */
  lemma ScanSnoc(p: string, c: char)
    ensures Scan(p + [c]) == if c == '/' then Pieces(Split(p), [])
                             else Pieces(Scan(p).done, Scan(p).open + [c])
  {
    assert (p + [c])[..|p|] == p;
  }

  /** A text without separators is one open element. */
  lemma {:induction false} ScanNoSeparator(s: string)
    requires NoSlash(s)
    ensures Scan(s) == Pieces([], s)
    decreases |s|
  {
    if s != [] {
      var s', c := s[..|s| - 1], s[|s| - 1];
      assert s == s' + [c];
      ScanNoSeparator(s');
      ScanSnoc(s', c);
    }
  }

  lemma SplitNoSlash(s: string)
    requires NoSlash(s)
    ensures Split(s) == [s]
  {
    ScanNoSeparator(s);
  }

  /** Reading past a separator: what comes before it is finished. */
  lemma {:induction false} ScanAppend(a: string, b: string)
    ensures Scan(a + "/" + b) == Pieces(Split(a) + Scan(b).done, Scan(b).open)
    decreases |b|
  {
    if b == [] {
      assert a + "/" + b == a + ['/'];
      ScanSnoc(a, '/');
    } else {
      var b', c := b[..|b| - 1], b[|b| - 1];
      assert b == b' + [c];
      assert a + "/" + b == (a + "/" + b') + [c];
      ScanAppend(a, b');
      ScanSnoc(a + "/" + b', c);
      ScanSnoc(b', c);
      if c == '/' {
        assert (Split(a) + Scan(b').done) + [Scan(b').open] == Split(a) + (Scan(b').done + [Scan(b').open]);
      }
    }
  }

  /** Splitting at one separator splits the text on either side of it. */
  lemma SplitAppend(a: string, b: string)
    ensures Split(a + "/" + b) == Split(a) + Split(b)
  {
    ScanAppend(a, b);
  }

  /** Splitting joined elements gives the elements back. */
  lemma {:induction false} SplitJoinElems(elems: seq<string>)
    requires elems != [] && AllNoSlash(elems)
    ensures Split(JoinElems(elems)) == elems
    decreases |elems|
  {
    if |elems| == 1 {
      SplitNoSlash(elems[0]);
    } else {
      var init, last := elems[..|elems| - 1], elems[|elems| - 1];
      assert AllNoSlash(init);
      SplitJoinElems(init);
      assert JoinElems(elems) == JoinElems(init) + "/" + last;
      SplitAppend(JoinElems(init), last);
      SplitNoSlash(last);
      assert init + [last] == elems;
    }
  }

  /** Joining the elements of a path gives the path back. */
  lemma {:induction false} JoinSplit(p: string)
    ensures JoinElems(Split(p)) == p
    decreases |p|
  {
    if p != [] {
      var q, c := p[..|p| - 1], p[|p| - 1];
      assert p == q + [c];
      JoinSplit(q);
      ScanSnoc(q, c);
      var d, o := Scan(q).done, Scan(q).open;
      if c == '/' {
        var e := d + [o] + [[]];
        assert e[..|e| - 1] == d + [o];
      } else if d != [] {
        var e := d + [o + [c]];
        assert e[..|e| - 1] == d;
        assert (d + [o])[..|d|] == d;
        ConcatAssoc(JoinElems(d) + "/", o, [c]);
      }
    }
  }

  lemma ConcatAssoc(x: string, y: string, z: string)
    ensures x + (y + z) == (x + y) + z
  {
  }

  lemma {:induction false} JoinElemsHead(elems: seq<string>)
    requires elems != [] && elems[0] != ""
    ensures |JoinElems(elems)| > 0 && JoinElems(elems)[0] == elems[0][0]
    decreases |elems|
  {
    if |elems| > 1 {
      JoinElemsHead(elems[..|elems| - 1]);
    }
  }

  lemma JoinElemsLast(elems: seq<string>)
    requires elems != [] && elems[|elems| - 1] != ""
    ensures |JoinElems(elems)| > 0
    ensures JoinElems(elems)[|JoinElems(elems)| - 1] == elems[|elems| - 1][|elems[|elems| - 1]| - 1]
  {
  }

  // ---------------------------------------------------------------------
  // Cleaning yields a normal stack, and a normal stack is left as it is.

  lemma {:induction false} StepNormal(rooted: bool, st: seq<string>, e: string)
    requires Normal(rooted, st) && NoSlash(e)
    ensures Normal(rooted, Step(rooted, st, e))
  {
    if e == ".." && !(st != [] && st[|st| - 1] != "..") && !rooted {
      var r := st + [".."];
      forall i | 0 <= i < |r| && r[i] == ".."
        ensures forall j :: 0 <= j < i ==> r[j] == ".."
      {
        if i == |st| && st != [] {
          assert st[|st| - 1] == "..";
        }
      }
    }
  }

  lemma {:induction false} ResolveNormal(rooted: bool, elems: seq<string>)
    requires AllNoSlash(elems)
    ensures Normal(rooted, Resolve(rooted, elems))
    decreases |elems|
  {
    if elems != [] {
      ResolveNormal(rooted, elems[..|elems| - 1]);
      StepNormal(rooted, Resolve(rooted, elems[..|elems| - 1]), elems[|elems| - 1]);
    }
  }

  lemma {:induction false} ResolveNormalIdentity(rooted: bool, st: seq<string>)
    requires Normal(rooted, st)
    ensures Resolve(rooted, st) == st
    decreases |st|
  {
    if st != [] {
      var init := st[..|st| - 1];
      assert Normal(rooted, init);
      ResolveNormalIdentity(rooted, init);
      if st[|st| - 1] == ".." && init != [] {
        assert init[|init| - 1] == "..";
      }
      assert init + [st[|st| - 1]] == st;
    }
  }

  /** A cleaned stack, written out, does not start with a separator. */
  lemma ResolveHead(rooted: bool, elems: seq<string>)
    requires AllNoSlash(elems)
    ensures var body := JoinElems(Resolve(rooted, elems));
      body != [] ==> body[0] != '/'
  {
    var st := Resolve(rooted, elems);
    ResolveNormal(rooted, elems);
    if st != [] {
      assert Kept(st[0]);
      JoinElemsHead(st);
    } else {
      assert JoinElems(st) == [];
    }
  }

  /** A leading empty element (the one before a root separator) is skipped. */
  lemma {:induction false} ResolveSkipsEmpty(rooted: bool, elems: seq<string>)
    ensures Resolve(rooted, [""] + elems) == Resolve(rooted, elems)
    decreases |elems|
  {
    if elems != [] {
      var e := [""] + elems;
      assert e[..|e| - 1] == [""] + elems[..|elems| - 1];
      ResolveSkipsEmpty(rooted, elems[..|elems| - 1]);
    }
  }

  // ---------------------------------------------------------------------
  // What Clean and Join promise.

  /** A cleaned path is never empty and ends in '/' only when it is the root. */
  lemma CleanShape(p: string)
    ensures Clean(p) != ""
    ensures Clean(p)[|Clean(p)| - 1] == '/' ==> Clean(p) == "/"
    ensures p != "" ==> (Clean(p)[0] == '/' <==> p[0] == '/')
  {
    if p != [] {
      var rooted := p[0] == '/';
      var st := Resolve(rooted, Split(p));
      SplitElemsNoSlash(p);
      ResolveNormal(rooted, Split(p));
      if st != [] {
        assert Kept(st[|st| - 1]) && Kept(st[0]);
        JoinElemsLast(st);
        JoinElemsHead(st);
      }
    }
  }

  lemma CleanDot()
    ensures Clean(".") == "."
  {
    SplitNoSlash(".");
  }

  lemma CleanRoot()
    ensures Clean("/") == "/"
  {
    assert "/"[..0] == [];
    assert Split("/") == ["", ""];
    assert ["", ""][..1] == [""];
    assert Resolve(true, [""]) == [];
  }

  /** Joining the root onto the root gives the root. */
  lemma JoinRootRoot()
    ensures Join("/", "/") == "/"
  {
    var root: string := "/";
    assert root == [] + "/" + [];
    SplitAppend([], []);
    SplitAppend(root, root);
    var elems := Split(root + "/" + root);
    assert elems == ["", "", "", ""];
    ResolveSkipsEmpty(true, ["", "", ""]);
    ResolveSkipsEmpty(true, ["", ""]);
    ResolveSkipsEmpty(true, [""]);
    assert ["", "", "", ""] == [""] + ["", "", ""];
    assert ["", "", ""] == [""] + ["", ""];
    assert ["", ""] == [""] + [""];
    assert Resolve(true, [""] + []) == [];
  }

  /** An ordinary name is already clean. */
  lemma CleanPlain(name: string)
    requires Plain(name)
    ensures Clean(name) == name
  {
    SplitNoSlash(name);
    assert Resolve(false, [name]) == [name] by {
      assert [name][..0] == [];
    }
  }

  /** The cleaned form of a path, taken apart: its root and its stack. */
  lemma CleanParts(p: string)
    requires p != ""
    ensures var st := Resolve(p[0] == '/', Split(p));
      Normal(p[0] == '/', st) &&
      Clean(p) == if p[0] == '/' then "/" + JoinElems(st)
                  else if st == [] then "." else JoinElems(st)
  {
    var st := Resolve(p[0] == '/', Split(p));
    SplitElemsNoSlash(p);
    ResolveNormal(p[0] == '/', Split(p));
    if st != [] {
      assert Kept(st[0]);
      JoinElemsHead(st);
    }
  }

  /** A rooted normal stack, written out, cleans to itself. */
  lemma CleanRootedStack(st: seq<string>)
    requires Normal(true, st)
    ensures Clean("/" + JoinElems(st)) == "/" + JoinElems(st)
  {
    if st == [] {
      assert "/" + JoinElems(st) == "/";
      CleanRoot();
    } else {
      CleanRootedElems(st);
    }
  }

  lemma CleanRootedElems(st: seq<string>)
    requires Normal(true, st) && st != []
    ensures Clean("/" + JoinElems(st)) == "/" + JoinElems(st)
  {
    var j := JoinElems(st);
    var c := "/" + j;
    assert c == [] + "/" + j;
    assert c[0] == '/';
    SplitAppend([], j);
    SplitJoinElems(st);
    assert Split(c) == [""] + st;
    ResolveSkipsEmpty(true, st);
    ResolveNormalIdentity(true, st);
    assert Resolve(true, Split(c)) == st;
  }

  /** A relative normal stack with some element, written out, cleans to itself. */
  lemma CleanRelativeStack(st: seq<string>)
    requires Normal(false, st) && st != []
    ensures Clean(JoinElems(st)) == JoinElems(st)
  {
    assert Kept(st[0]);
    JoinElemsHead(st);
    SplitJoinElems(st);
    ResolveNormalIdentity(false, st);
  }

  /** Cleaning is idempotent: a cleaned path is already in normal form. */
  lemma CleanIdempotent(p: string)
    ensures Clean(Clean(p)) == Clean(p)
  {
    CleanDot();
    if p != [] {
      CleanParts(p);
      var st := Resolve(p[0] == '/', Split(p));
      if p[0] == '/' {
        CleanRootedStack(st);
      } else if st != [] {
        CleanRelativeStack(st);
      }
    }
  }

  /** Join gives "" exactly when both parts are empty; otherwise a cleaned path. */
  lemma JoinShape(a: string, b: string)
    ensures Join(a, b) == "" <==> a == "" && b == ""
    ensures Join(a, b) != "" ==> Join(a, b) == Clean(Join(a, b))
    ensures Join(a, b) != "" && Join(a, b)[|Join(a, b)| - 1] == '/' ==> Join(a, b) == "/"
  {
    if a == [] {
      CleanShape(b);
      CleanIdempotent(b);
    } else {
      CleanShape(a + "/" + b);
      CleanIdempotent(a + "/" + b);
    }
  }

  /** Appending an ordinary name pushes it onto the cleaned stack. */
  lemma ResolveAppendPlain(rooted: bool, a: string, s: string)
    requires Plain(s)
    ensures Resolve(rooted, Split(a + "/" + s)) == Resolve(rooted, Split(a)) + [s]
  {
    SplitAppend(a, s);
    SplitNoSlash(s);
    var elems := Split(a) + [s];
    assert elems[..|elems| - 1] == Split(a);
  }

  /** Joining an ordinary name onto a path cleaned to nothing gives the
      name, under the root when the path was rooted. */
  lemma JoinPlainOntoEmpty(a: string, s: string)
    requires a != "" && Plain(s) && Resolve(a[0] == '/', Split(a)) == []
    ensures Clean(a) == (if a[0] == '/' then "/" else ".")
    ensures Join(a, s) == (if a[0] == '/' then "/" + s else s)
  {
    var p := a + "/" + s;
    assert p[0] == a[0];
    ResolveAppendPlain(a[0] == '/', a, s);
    assert JoinElems([s]) == s;
  }

  /** Join of a path and an ordinary name, in terms of the path's stack. */
  lemma JoinPlainStack(a: string, s: string)
    requires a != "" && Plain(s)
    ensures var st := Resolve(a[0] == '/', Split(a));
      Join(a, s) == if a[0] == '/' then "/" + JoinElems(st + [s]) else JoinElems(st + [s])
  {
    var rooted := a[0] == '/';
    var p := a + "/" + s;
    assert p[0] == a[0];
    var st := Resolve(rooted, Split(a));
    ResolveAppendPlain(rooted, a, s);
    JoinElemsLast(st + [s]);
  }

  /** Joining an ordinary name onto a path that keeps some elements. */
  lemma JoinPlainOntoElems(a: string, s: string)
    requires a != "" && Plain(s) && Resolve(a[0] == '/', Split(a)) != []
    ensures Clean(a) != "/" && Clean(a) != "."
    ensures Join(a, s) == Clean(a) + "/" + s
  {
    var rooted := a[0] == '/';
    var st := Resolve(rooted, Split(a));
    JoinPlainStack(a, s);
    CleanParts(a);
    assert (st + [s])[..|st|] == st;
    assert JoinElems(st + [s]) == JoinElems(st) + "/" + s;
    assert Kept(st[0]);
    JoinElemsHead(st);
    assert !rooted && |st| == 1 ==> JoinElems(st) == st[0];
    var body := JoinElems(st);
    if rooted {
      assert Clean(a) == "/" + body;
      assert Join(a, s) == "/" + (body + "/" + s);
      ConcatAssoc("/", body + "/", s);
      ConcatAssoc("/", body, "/");
    } else {
      assert Clean(a) == body;
      assert Join(a, s) == body + "/" + s;
    }
  }

  /** Joining an ordinary name onto a path appends it to the cleaned path
      with one separator, whatever separators the path had. */
  lemma JoinPlain(a: string, s: string)
    requires a != "" && Plain(s)
    ensures Join(a, s) ==
      if Clean(a) == "/" then "/" + s
      else if Clean(a) == "." then s
      else Clean(a) + "/" + s
  {
    if Resolve(a[0] == '/', Split(a)) == [] {
      JoinPlainOntoEmpty(a, s);
    } else {
      JoinPlainOntoElems(a, s);
    }
  }

  // ---------------------------------------------------------------------
  // Without ".." elements, cleaning only drops the empty and "." elements.

  /** The elements of `elems` that name something: all but "" and ".", in order. */
  function Names(elems: seq<string>): (ns: seq<string>)
    ensures |ns| <= |elems|
    ensures forall i :: 0 <= i < |ns| ==> ns[i] != "" && ns[i] != "." && ns[i] in elems
    decreases |elems|
  {
    if elems == [] then []
    else
      var init := Names(elems[..|elems| - 1]);
      var e := elems[|elems| - 1];
      if e == "" || e == "." then init else init + [e]
  }

  predicate NoParent(elems: seq<string>) {
    forall i :: 0 <= i < |elems| ==> elems[i] != ".."
  }

  /** With no ".." to cancel anything, the cleaned stack is the names. */
  lemma {:induction false} ResolveNames(rooted: bool, elems: seq<string>)
    requires NoParent(elems)
    ensures Resolve(rooted, elems) == Names(elems)
    decreases |elems|
  {
    if elems != [] {
      var init := elems[..|elems| - 1];
      assert NoParent(init);
      ResolveNames(rooted, init);
    }
  }

  lemma {:induction false} NamesAppend(x: seq<string>, y: seq<string>)
    ensures Names(x + y) == Names(x) + Names(y)
    decreases |y|
  {
    if y == [] {
      assert x + y == x;
    } else {
      var y' := y[..|y| - 1];
      assert (x + y)[..|x + y| - 1] == x + y';
      NamesAppend(x, y');
    }
  }

  /** A stack of non-empty names is written out as nothing only when empty. */
  lemma NamesText(ns: seq<string>)
    requires forall i :: 0 <= i < |ns| ==> ns[i] != ""
    ensures JoinElems(ns) == [] <==> ns == []
  {
    if ns != [] {
      JoinElemsHead(ns);
    }
  }

  /** Join of two paths without ".." elements: the names of both, in order,
      one '/' between neighbours, under the root when the joined text is
      rooted, and "." when a relative join names nothing. */
  lemma JoinNames(a: string, b: string)
    requires NoParent(Split(a)) && NoParent(Split(b))
    ensures var ns := Names(Split(a) + Split(b));
      Join(a, b) == if a == "" && b == "" then ""
                    else if (a + b)[0] == '/' then "/" + JoinElems(ns)
                    else if ns == [] then "." else JoinElems(ns)
  {
    NamesAppend(Split(a), Split(b));
    if a == [] {
      JoinNamesOntoEmpty(b);
      assert a + b == b;
      assert Names(Split(a) + Split(b)) == Names(Split(b));
    } else {
      assert (a + b)[0] == a[0];
      JoinNamesOnto(a, b);
    }
  }

  lemma JoinNamesOntoEmpty(b: string)
    requires NoParent(Split(b))
    ensures var ns := Names(Split(b));
      Join("", b) == if b == "" then ""
                     else if b[0] == '/' then "/" + JoinElems(ns)
                     else if ns == [] then "." else JoinElems(ns)
    ensures Names(Split("")) == []
  {
    assert Split("") == [""];
    var ns := Names(Split(b));
    NamesText(ns);
    if b != "" {
      ResolveNames(b[0] == '/', Split(b));
    }
  }

  lemma JoinNamesOnto(a: string, b: string)
    requires a != ""
    requires NoParent(Split(a)) && NoParent(Split(b))
    ensures var ns := Names(Split(a) + Split(b));
      Join(a, b) == if a[0] == '/' then "/" + JoinElems(ns)
                    else if ns == [] then "." else JoinElems(ns)
  {
    var p := a + "/" + b;
    assert p[0] == a[0];
    SplitAppend(a, b);
    assert NoParent(Split(p));
    ResolveNames(a[0] == '/', Split(p));
    NamesText(Names(Split(p)));
  }

  /** A rooted name joined with a rooted name that ends in '/': both names
      under the root, one '/' between them, no trailing '/'. */
  lemma JoinTwoNames(x: string, y: string)
    requires Plain(x) && Plain(y)
    ensures Join("/" + x, "/" + y + "/") == "/" + x + "/" + y
  {
    var base, req := "/" + x, "/" + y + "/";
    var ns := Names(Split(base) + Split(req));
    assert ns == [x, y] by {
      SplitTwoNames(x, y);
      NamesTwoNames(x, y);
    }
    assert Join(base, req) == "/" + JoinElems(ns) by {
      SplitTwoNames(x, y);
      assert NoParent(Split(base)) && NoParent(Split(req));
      assert (base + req)[0] == '/';
      JoinNamesOnto(base, req);
      NamesAppend(Split(base), Split(req));
    }
    assert JoinElems([x, y]) == x + "/" + y by {
      assert [x, y][..1] == [x];
    }
  }

  lemma SplitRootedName(x: string)
    requires Plain(x)
    ensures Split("/" + x) == ["", x]
  {
    assert Split("") == [""];
    SplitNoSlash(x);
    assert "/" + x == "" + "/" + x;
    SplitAppend("", x);
  }

  lemma SplitTwoNames(x: string, y: string)
    requires Plain(x) && Plain(y)
    ensures Split("/" + x) == ["", x]
    ensures Split("/" + y + "/") == ["", y, ""]
  {
    SplitRootedName(x);
    assert Split("") == [""];
    SplitNoSlash(y);
    SplitAppend(y, "");
    assert "/" + y + "/" == "" + "/" + (y + "/" + "");
    SplitAppend("", y + "/" + "");
  }

  /** A rooted name joined onto the empty base path is itself. */
  lemma JoinRootedName(x: string)
    requires Plain(x)
    ensures Join("", "/" + x) == "/" + x
  {
    var b := "/" + x;
    assert Names(Split(b)) == [x] by {
      SplitRootedName(x);
      var e: seq<string> := ["", x];
      assert e[..1] == [""] && e[..1][..0] == [];
      assert Names(e[..1]) == [];
    }
    assert Join("", b) == "/" + JoinElems(Names(Split(b))) by {
      SplitRootedName(x);
      assert NoParent(Split(b));
      JoinNamesOntoEmpty(b);
    }
  }

  lemma NamesTwoNames(x: string, y: string)
    requires Plain(x) && Plain(y)
    ensures Names(["", x] + ["", y, ""]) == [x, y]
  {
    var e: seq<string> := ["", x] + ["", y, ""];
    assert e[..1] == [""] && e[..1][..0] == [];
    assert e[..2][..1] == e[..1];
    assert e[..3][..2] == e[..2];
    assert e[..4][..3] == e[..3];
    assert e[..5][..4] == e[..4] && e[..5] == e;
    assert Names(e[..1]) == [];
    assert Names(e[..2]) == [x];
    assert Names(e[..3]) == [x];
    assert Names(e[..4]) == [x, y];
  }
}
