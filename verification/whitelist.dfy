// filterRelationsObject, filterSelectByWhitelist and extractRelationKeys of BaseService: what a client may ask for
// of the relations and columns that a service allows. The two filters are the same function.
module Whitelists {
  import opened Wrappers

  // A relations or select object: flags, nested objects, and values of any other kind.
  datatype Tree = Flag(on: bool) | Node(children: seq<Child>) | Other

  datatype Child = Child(key: string, value: Tree)

  function IndexOf(children: seq<Child>, key: string): (i: nat)
    ensures i <= |children| && (i < |children| ==> children[i].key == key)
    ensures forall j :: 0 <= j < i ==> children[j].key != key
  {
    if children == [] || children[0].key == key then 0 else 1 + IndexOf(children[1..], key)
  }

  predicate Has(children: seq<Child>, key: string) { IndexOf(children, key) < |children| }

  function Get(children: seq<Child>, key: string): Tree
    requires Has(children, key)
  {
    children[IndexOf(children, key)].value
  }

  predicate DistinctKeys(children: seq<Child>) {
    forall i, j :: 0 <= i < j < |children| ==> children[i].key != children[j].key
  }

  predicate Proper(t: Tree)
    decreases t
  {
    t.Node? ==> DistinctKeys(t.children) && forall i :: 0 <= i < |t.children| ==> ProperChild(t.children[i])
  }

  predicate ProperChild(c: Child)
    decreases c
  {
    Proper(c.value)
  }

  // ----- The filter -----

  // `inherited` are the names that the `in` operator finds on every object: the members of Object.prototype.
  // Their values are functions, hence no nested objects.
  function Allowed(w: seq<Child>, key: string, inherited: set<string>): Option<Tree> {
    if Has(w, key) then Some(Get(w, key)) else if key in inherited then Some(Other) else None
  }

  function Filtered(r: Tree, w: Tree, inherited: set<string>): seq<Child>
    requires r.Node? && w.Node?
    decreases r, |r.children| + 1
  {
    FilteredUpTo(r, w, inherited, |r.children|)
  }

  function FilteredUpTo(r: Tree, w: Tree, inherited: set<string>, n: nat): seq<Child>
    requires r.Node? && w.Node? && n <= |r.children|
    decreases r, n
  {
    if n == 0 then []
    else
      var kept := FilteredChild(r.children[n - 1], w, inherited);
      FilteredUpTo(r, w, inherited, n - 1) + (if kept.Some? then [Child(r.children[n - 1].key, kept.value)] else [])
  }

  function FilteredChild(c: Child, w: Tree, inherited: set<string>): Option<Tree>
    requires w.Node?
    decreases c, 0
  {
    var allowed := Allowed(w.children, c.key, inherited);
    if allowed.None? then None
    else if c.value.Node? && allowed.value.Node? then
      var nested := Filtered(c.value, allowed.value, inherited);
      if nested != [] then Some(Node(nested)) else None
    else if c.value == Flag(true) then Some(c.value)
    else None
  }

  method FilterRelationsObject(relations: Tree, whitelist: Tree, inherited: set<string>) returns (filtered: seq<Child>)
    requires relations.Node? && whitelist.Node?
    ensures filtered == Filtered(relations, whitelist, inherited)
    decreases relations
  {
    filtered := [];
    for n := 0 to |relations.children|
      invariant filtered == FilteredUpTo(relations, whitelist, inherited, n)
    {
      var child := relations.children[n];
      var allowed := Allowed(whitelist.children, child.key, inherited);
      if allowed.Some? {
        if child.value.Node? && allowed.value.Node? {
          assert child < relations;
          var nestedFiltered := FilterRelationsObject(child.value, allowed.value, inherited);
          if nestedFiltered != [] {
            filtered := filtered + [Child(child.key, Node(nestedFiltered))];
          }
        } else if child.value == Flag(true) {
          filtered := filtered + [child];
        }
      }
    }
  }

  // ----- Paths -----

  function At(t: Tree, path: seq<string>): Option<Tree> {
    if path == [] then Some(t)
    else if t.Node? && Has(t.children, path[0]) then At(Get(t.children, path[0]), path[1..])
    else None
  }

  predicate Requested(r: Tree, path: seq<string>) { path != [] && At(r, path) == Some(Flag(true)) }

  // On the whitelist; or its last step is a name every object inherits.
  predicate Listed(w: Tree, path: seq<string>, inherited: set<string>)
    decreases |path|
  {
    if path == [] || !w.Node? then false
    else if |path| == 1 then Allowed(w.children, path[0], inherited).Some?
    else Has(w.children, path[0]) && Listed(Get(w.children, path[0]), path[1..], inherited)
  }

  lemma IndexIs(children: seq<Child>, key: string, i: nat)
    requires i < |children| && children[i].key == key && forall j :: 0 <= j < i ==> children[j].key != key
    ensures IndexOf(children, key) == i
  {
  }

  lemma {:induction false} HasAppend(a: seq<Child>, b: seq<Child>, key: string)
    ensures IndexOf(a + b, key) == if Has(a, key) then IndexOf(a, key) else |a| + IndexOf(b, key)
  {
    if a == [] {
      assert a + b == b;
    } else {
      assert (a + b)[0] == a[0] && (a + b)[1..] == a[1..] + b;
      HasAppend(a[1..], b, key);
    }
  }

  lemma HasOneMore(a: seq<Child>, c: Child, key: string)
    ensures Has(a + [c], key) <==> Has(a, key) || c.key == key
    ensures Has(a, key) ==> Get(a + [c], key) == Get(a, key)
    ensures !Has(a, key) && c.key == key ==> Get(a + [c], key) == c.value
  {
    HasAppend(a, [c], key);
  }

  lemma OnlyIndex(children: seq<Child>, key: string, i: nat)
    requires DistinctKeys(children) && i < |children|
    ensures IndexOf(children, key) == i <==> children[i].key == key
  {
    if children[i].key == key {
      IndexIs(children, key, i);
    }
  }

  // What the filter makes of each key.
  lemma {:induction false} FilteredHas(r: Tree, w: Tree, inherited: set<string>, n: nat, key: string)
    requires r.Node? && w.Node? && DistinctKeys(r.children) && n <= |r.children|
    ensures var f, i := FilteredUpTo(r, w, inherited, n), IndexOf(r.children, key);
            if i < n && FilteredChild(r.children[i], w, inherited).Some?
            then Has(f, key) && Get(f, key) == FilteredChild(r.children[i], w, inherited).value
            else !Has(f, key)
    decreases n
  {
    if n > 0 {
      var c := r.children[n - 1];
      OnlyIndex(r.children, key, n - 1);
      hide FilteredChild, IndexOf, DistinctKeys;
      FilteredHas(r, w, inherited, n - 1, key);
      var kept, before := FilteredChild(c, w, inherited), FilteredUpTo(r, w, inherited, n - 1);
      if kept.Some? {
        HasOneMore(before, Child(c.key, kept.value), key);
      } else {
        assert before + [] == before;
      }
    } else {
      assert !Has([], key);
    }
  }

  lemma NothingRequested(path: seq<string>)
    ensures !Requested(Node([]), path)
  {
  }

  // The flags that come through are exactly those that were requested and are listed.
  lemma {:induction false} KeptIffListed(r: Tree, w: Tree, inherited: set<string>, path: seq<string>)
    requires r.Node? && w.Node? && Proper(r)
    ensures Requested(Node(Filtered(r, w, inherited)), path) <==> Requested(r, path) && Listed(w, path, inherited)
    decreases |path|
  {
    if path != [] {
      FilteredHas(r, w, inherited, |r.children|, path[0]);
      if Has(r.children, path[0]) {
        var c, rest := r.children[IndexOf(r.children, path[0])], path[1..];
        assert ProperChild(c);
        var allowed, kept := Allowed(w.children, path[0], inherited), FilteredChild(c, w, inherited);
        assert At(r, path) == At(c.value, rest);
        assert At(Node(Filtered(r, w, inherited)), path) == if kept.Some? then At(kept.value, rest) else None;
        assert |path| > 1 ==> rest != [];
        if c.value.Node? && allowed.Some? && allowed.value.Node? {
          KeptIffListed(c.value, allowed.value, inherited, rest);
          NothingRequested(rest);
        }
      }
    }
  }

  // ----- The whitelist as paths -----

  // Every path of the object, step by step.
  function Paths(t: Tree): seq<seq<string>>
    requires t.Node?
    decreases t, |t.children| + 1
  {
    PathsUpTo(t, |t.children|)
  }

  function PathsUpTo(t: Tree, n: nat): seq<seq<string>>
    requires t.Node? && n <= |t.children|
    decreases t, n
  {
    if n == 0 then [] else PathsUpTo(t, n - 1) + ChildPaths(t.children[n - 1])
  }

  function ChildPaths(c: Child): seq<seq<string>>
    decreases c, 0
  {
    [[c.key]] + if c.value.Node? then Prefixed(c.key, Paths(c.value)) else []
  }

  function Prefixed(key: string, paths: seq<seq<string>>): seq<seq<string>> {
    seq(|paths|, i requires 0 <= i < |paths| => [key] + paths[i])
  }

  lemma {:induction false} PathsAreAt(t: Tree, path: seq<string>)
    requires t.Node? && Proper(t)
    ensures path in Paths(t) <==> path != [] && At(t, path).Some?
    decreases |path|
  {
    PathsByChild(t, |t.children|, path);
    if path != [] {
      var i := IndexOf(t.children, path[0]);
      forall j | 0 <= j < |t.children| && path in ChildPaths(t.children[j])
        ensures j == i
      {
        IndexIs(t.children, path[0], j);
      }
      if i < |t.children| {
        assert ProperChild(t.children[i]);
        if t.children[i].value.Node? {
          PathsAreAt(t.children[i].value, path[1..]);
          PrefixedHas(path[0], Paths(t.children[i].value), path);
        }
        assert |path| == 1 ==> path == [path[0]];
      }
    }
  }

  lemma {:induction false} PathsByChild(t: Tree, n: nat, path: seq<string>)
    requires t.Node? && n <= |t.children|
    ensures path in PathsUpTo(t, n) <==> exists j :: 0 <= j < n && path in ChildPaths(t.children[j])
    decreases n
  {
    if n > 0 {
      PathsByChild(t, n - 1, path);
    }
  }

  lemma PrefixedHas(key: string, paths: seq<seq<string>>, path: seq<string>)
    ensures path in Prefixed(key, paths) <==> path != [] && path[0] == key && path[1..] in paths
  {
    if path in Prefixed(key, paths) {
      var i :| 0 <= i < |paths| && Prefixed(key, paths)[i] == path;
      assert path[1..] == paths[i];
    }
    if path != [] && path[0] == key && path[1..] in paths {
      var i :| 0 <= i < |paths| && paths[i] == path[1..];
      assert Prefixed(key, paths)[i] == path;
    }
  }

  // The object that a path ends in.
  predicate EndsIn(w: Tree, path: seq<string>)
    requires path != []
  {
    At(w, path[..|path| - 1]).Some? && At(w, path[..|path| - 1]).value.Node?
  }

  // What the `in` tests accept: a path of the object, or one from any of its objects to a name every object inherits.
  lemma {:induction false} ListedIff(w: Tree, path: seq<string>, inherited: set<string>)
    requires w.Node? && path != []
    ensures Listed(w, path, inherited) <==> At(w, path).Some? || (path[|path| - 1] in inherited && EndsIn(w, path))
    decreases |path|
  {
    if |path| == 1 {
      assert path[1..] == [] && path[..0] == [];
    } else if Has(w.children, path[0]) {
      var next, rest := Get(w.children, path[0]), path[1..];
      assert rest != [] && rest[|rest| - 1] == path[|path| - 1];
      assert At(w, path) == At(next, rest);
      assert path[..|path| - 1][1..] == rest[..|rest| - 1] && path[..|path| - 1][0] == path[0];
      assert At(w, path[..|path| - 1]) == At(next, rest[..|rest| - 1]);
      assert Listed(w, path, inherited) == Listed(next, rest, inherited);
      if next.Node? {
        ListedIff(next, rest, inherited);
      } else {
        LeafEnds(next, rest);
      }
    } else {
      assert path[..|path| - 1][0] == path[0];
    }
  }

  lemma LeafEnds(t: Tree, path: seq<string>)
    requires !t.Node? && path != []
    ensures At(t, path).None? && !EndsIn(t, path)
  {
  }

  // Exactly which requested flags come through: those whose path is one of the whitelist's, and those with an
  // inherited name at the end, in any object of the whitelist.
  lemma KeptIffInPaths(r: Tree, w: Tree, inherited: set<string>, path: seq<string>)
    requires r.Node? && w.Node? && Proper(r) && Proper(w) && path != []
    ensures Requested(Node(Filtered(r, w, inherited)), path) <==>
            Requested(r, path) && (path in Paths(w) || (path[|path| - 1] in inherited && EndsIn(w, path)))
  {
    KeptIffListed(r, w, inherited, path);
    PathsAreAt(w, path);
    ListedIff(w, path, inherited);
  }

  // ----- Paths as dotted names -----

  function Dotted(path: seq<string>): string {
    if path == [] then "" else if |path| == 1 then path[0] else path[0] + "." + Dotted(path[1..])
  }

  function Names(paths: seq<seq<string>>): seq<string> { seq(|paths|, i requires 0 <= i < |paths| => Dotted(paths[i])) }

  function Under(key: string, names: seq<string>): seq<string> {
    seq(|names|, i requires 0 <= i < |names| => key + "." + names[i])
  }

  lemma {:induction false} PathsAreNotEmpty(t: Tree, n: nat)
    requires t.Node? && n <= |t.children|
    ensures [] !in PathsUpTo(t, n)
    decreases n
  {
    if n > 0 {
      PathsAreNotEmpty(t, n - 1);
    }
  }

  lemma NameUnder(key: string, path: seq<string>)
    requires path != []
    ensures Dotted([key] + path) == key + "." + Dotted(path)
  {
    assert ([key] + path)[1..] == path;
  }

  lemma NamesOfChild(c: Child)
    ensures Names(ChildPaths(c)) == [c.key] + if c.value.Node? then Under(c.key, Names(Paths(c.value))) else []
  {
    assert Dotted([c.key]) == c.key;
    hide Dotted, Paths;
    if c.value.Node? {
      var paths := Paths(c.value);
      assert [] !in paths by { NoEmptyPath(c.value); }
      forall i | 0 <= i < |paths|
        ensures Dotted([c.key] + paths[i]) == c.key + "." + Dotted(paths[i])
      {
        assert paths[i] in paths;
        NameUnder(c.key, paths[i]);
      }
    }
  }

  lemma NoEmptyPath(t: Tree)
    requires t.Node?
    ensures [] !in Paths(t)
  {
    PathsAreNotEmpty(t, |t.children|);
  }

  lemma NamesAppend(a: seq<seq<string>>, b: seq<seq<string>>)
    ensures Names(a + b) == Names(a) + Names(b)
  {
  }

  lemma NamesStep(t: Tree, n: nat)
    requires t.Node? && n < |t.children|
    ensures var c := t.children[n];
            Names(PathsUpTo(t, n + 1)) ==
            Names(PathsUpTo(t, n)) + ([c.key] + if c.value.Node? then Under(c.key, Names(Paths(c.value))) else [])
  {
    NamesOfChild(t.children[n]);
    NamesAppend(PathsUpTo(t, n), ChildPaths(t.children[n]));
  }

  // extractRelationKeys: the loop with its recursion gives the dotted names of all paths.
  method ExtractRelationKeys(relations: Tree) returns (keys: seq<string>)
    requires relations.Node?
    ensures keys == Names(Paths(relations))
    decreases relations
  {
    keys := [];
    assert Names(PathsUpTo(relations, 0)) == [];
    hide Names, PathsUpTo, Under;
    for n := 0 to |relations.children|
      invariant keys == Names(PathsUpTo(relations, n))
    {
      var child := relations.children[n];
      NamesStep(relations, n);
      var found := [child.key];
      if child.value.Node? {
        assert child < relations;
        var nestedKeys := ExtractRelationKeys(child.value);
        found := found + Under(child.key, nestedKeys);
      }
      keys := keys + found;
    }
  }

  predicate DotFree(path: seq<string>) { forall i :: 0 <= i < |path| ==> '.' !in path[i] }

  lemma HasDot(path: seq<string>)
    requires DotFree(path) && path != []
    ensures '.' in Dotted(path) <==> |path| > 1
  {
    if |path| > 1 {
      assert Dotted(path)[|path[0]|] == '.';
    }
  }

  lemma {:induction false} DottedIsInjective(a: seq<string>, b: seq<string>)
    requires DotFree(a) && DotFree(b) && a != [] && b != [] && Dotted(a) == Dotted(b)
    ensures a == b
    decreases |a|
  {
    HasDot(a);
    HasDot(b);
    if |a| > 1 {
      FirstDot(a[0], Dotted(a[1..]), b[0], Dotted(b[1..]));
      DottedIsInjective(a[1..], b[1..]);
      assert a == [a[0]] + a[1..] && b == [b[0]] + b[1..];
    }
  }

  lemma DotNotBefore(a: string, s: string, b: string, t: string)
    requires '.' !in b && a + "." + s == b + "." + t
    ensures |b| <= |a|
  {
    var x := b + "." + t;
    assert forall i :: 0 <= i < |b| ==> x[i] == b[i];
    assert (a + "." + s)[|a|] == '.';
  }

  lemma FirstDot(a: string, s: string, b: string, t: string)
    requires '.' !in a && '.' !in b && a + "." + s == b + "." + t
    ensures a == b && s == t
  {
    DotNotBefore(a, s, b, t);
    DotNotBefore(b, t, a, s);
    var x := a + "." + s;
    assert x[..|a|] == a && x[..|b|] == b && x[|a| + 1..] == s && x[|b| + 1..] == t;
  }

  // The dotted name of a path is listed exactly when the path is, as long as no key has a dot in it.
  lemma NamedIffPath(w: Tree, path: seq<string>)
    requires w.Node? && path != [] && DotFree(path)
    requires forall other :: other in Paths(w) ==> DotFree(other)
    ensures Dotted(path) in Names(Paths(w)) <==> path in Paths(w)
  {
    var paths := Paths(w);
    PathsAreNotEmpty(w, |w.children|);
    if path in paths {
      var i :| 0 <= i < |paths| && paths[i] == path;
      assert Names(paths)[i] == Dotted(path);
    }
    if Dotted(path) in Names(paths) {
      var i :| 0 <= i < |paths| && Names(paths)[i] == Dotted(path);
      assert paths[i] in paths;
      DottedIsInjective(paths[i], path);
    }
  }

  // The string form of a request is filtered by the list of names. The object form lets the same paths through,
  // and those to an inherited name.
  lemma FormsAgree(r: Tree, w: Tree, inherited: set<string>, path: seq<string>)
    requires r.Node? && w.Node? && Proper(r) && Proper(w) && path != []
    requires DotFree(path) && forall other :: other in Paths(w) ==> DotFree(other)
    requires Requested(r, path)
    ensures Requested(Node(Filtered(r, w, inherited)), path) <==>
            Dotted(path) in Names(Paths(w)) || (path[|path| - 1] in inherited && EndsIn(w, path))
  {
    KeptIffInPaths(r, w, inherited, path);
    NamedIffPath(w, path);
  }

  // In any object of the whitelist an inherited name is let through whatever that object says.
  lemma InheritedNamePasses(r: Tree, w: Tree, inherited: set<string>, path: seq<string>)
    requires r.Node? && w.Node? && Proper(r) && Requested(r, path) && path[|path| - 1] in inherited && EndsIn(w, path)
    ensures Requested(Node(Filtered(r, w, inherited)), path)
  {
    KeptIffListed(r, w, inherited, path);
    ListedIff(w, path, inherited);
  }

  // ----- Idempotence -----

  lemma {:induction false} FilterChildAgain(c: Child, w: Tree, inherited: set<string>)
    requires w.Node? && FilteredChild(c, w, inherited).Some?
    ensures FilteredChild(Child(c.key, FilteredChild(c, w, inherited).value), w, inherited) == FilteredChild(c, w, inherited)
    decreases c, 0
  {
    var allowed := Allowed(w.children, c.key, inherited);
    if c.value.Node? && allowed.value.Node? {
      FilterAgain(c.value, allowed.value, inherited, |c.value.children|);
    }
  }

  lemma OneMore(f: seq<Child>, g: seq<Child>, w: Tree, inherited: set<string>, c: Child)
    requires w.Node? && g == f + [c] && FilteredChild(c, w, inherited) == Some(c.value)
    requires Filtered(Node(f), w, inherited) == f
    requires FilteredUpTo(Node(f), w, inherited, |f|) == FilteredUpTo(Node(g), w, inherited, |f|)
    ensures Filtered(Node(g), w, inherited) == g
  {
    assert g[|f|] == c && |g| == |f| + 1;
    assert Filtered(Node(g), w, inherited) == FilteredUpTo(Node(g), w, inherited, |f| + 1);
    assert Filtered(Node(f), w, inherited) == FilteredUpTo(Node(f), w, inherited, |f|);
  }

  lemma {:induction false} FilterAgain(r: Tree, w: Tree, inherited: set<string>, n: nat)
    requires r.Node? && w.Node? && n <= |r.children|
    ensures var f := FilteredUpTo(r, w, inherited, n);
            Filtered(Node(f), w, inherited) == f
    decreases r, n
  {
    if n > 0 {
      FilterAgain(r, w, inherited, n - 1);
      var c := r.children[n - 1];
      var f, g := FilteredUpTo(r, w, inherited, n - 1), FilteredUpTo(r, w, inherited, n);
      if FilteredChild(c, w, inherited).Some? {
        FilterChildAgain(c, w, inherited);
        SamePrefix(f, g, w, inherited, |f|);
        OneMore(f, g, w, inherited, Child(c.key, FilteredChild(c, w, inherited).value));
      } else {
        assert g == f;
      }
    }
  }

  lemma {:induction false} SamePrefix(f: seq<Child>, g: seq<Child>, w: Tree, inherited: set<string>, n: nat)
    requires w.Node? && n <= |f| <= |g| && f == g[..|f|]
    ensures FilteredUpTo(Node(f), w, inherited, n) == FilteredUpTo(Node(g), w, inherited, n)
    decreases n
  {
    if n > 0 {
      SamePrefix(f, g, w, inherited, n - 1);
    }
  }

  // Filtering twice is filtering once.
  lemma FilterIsIdempotent(r: Tree, w: Tree, inherited: set<string>)
    requires r.Node? && w.Node?
    ensures Filtered(Node(Filtered(r, w, inherited)), w, inherited) == Filtered(r, w, inherited)
  {
    FilterAgain(r, w, inherited, |r.children|);
  }
}
