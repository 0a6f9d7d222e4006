/** What the two error searches find, told by paths through the properties of the error objects. */
module ErrorPaths {
  import opened Options
  import opened Traversal
  import opened ErrorSearch

  // ---- routes are paths ----

  /** Values one after another from the start, each a successor of the one before it. */
  ghost predicate IsPath(v: View, root: Value, path: seq<Value>)
  {
    && path != [] && path[0] == root
    && forall i :: 0 <= i < |path| - 1 ==>
         path[i].Ref? && path[i].id in v.kids && path[i + 1] in v.kids[path[i].id]
  }

  function Last(path: seq<Value>): Value
    requires path != []
  {
    path[|path| - 1]
  }

  lemma {:induction false} RouteToPath(v: View, root: Value, r: Route) returns (path: seq<Value>)
    requires Follow(v, root, r).Some?
    ensures IsPath(v, root, path) && Last(path) == Follow(v, root, r).value && |path| == Depth(r) + 1
  {
    if r.Start? {
      path := [root];
    } else {
      var before := RouteToPath(v, root, r.prev);
      path := before + [Follow(v, root, r).value];
    }
  }

  lemma {:induction false} PathToRoute(v: View, root: Value, path: seq<Value>) returns (r: Route)
    requires IsPath(v, root, path)
    ensures Follow(v, root, r) == Some(Last(path)) && Depth(r) + 1 == |path|
  {
    if |path| == 1 {
      r := Start;
    } else {
      var before := path[..|path| - 1];
      var p := PathToRoute(v, root, before);
      var kids := v.kids[Last(before).id];
      assert path[|path| - 2 + 1] in kids;
      var e :| 0 <= e < |kids| && kids[e] == Last(path);
      r := Via(p, e);
    }
  }

  // ---- backend ----

  /** The object has the value under this name. */
  predicate Has(o: Object, name: string, x: Value)
  {
    name in o.props && o.props[name] == x
  }

  /** An object, a text that is not empty, or another value that counts as true. */
  predicate IsSomething(x: Value)
  {
    x.Ref? || (x.Text? && |x.text| > 0) || (x.Primitive? && x.truthy)
  }

  /** The value under error, under error inside the object under info, or under cause, if it is truthy. */
  predicate Links(heap: Heap, n: nat, x: Value)
    requires n in heap
  {
    && IsSomething(x)
    && (|| Has(heap[n], "error", x)
        || ("info" in heap[n].props && var info := heap[n].props["info"];
            info.Ref? && info.id in heap && Has(heap[info.id], "error", x))
        || Has(heap[n], "cause", x))
  }

  ghost predicate ErrorPath(heap: Heap, root: Value, path: seq<Value>)
  {
    && path != [] && path[0] == root
    && forall i :: 0 <= i < |path| - 1 ==>
         path[i].Ref? && path[i].id in heap && Links(heap, path[i].id, path[i + 1])
  }

  /** The data of the object is a text of a selector at least: 0x and eight digits. */
  predicate HoldsRevertData(heap: Heap, x: Value, t: string)
  {
    x.Ref? && x.id in heap && Has(heap[x.id], "data", Value.Text(t)) && |t| >= 10 && t[0] == '0' && t[1] == 'x'
  }

  ghost predicate PathToData(heap: Heap, root: Value, path: seq<Value>, t: string)
  {
    ErrorPath(heap, root, path) && HoldsRevertData(heap, Last(path), t)
  }

  lemma BackendLinks(heap: Heap, n: nat, x: Value)
    requires n in heap
    ensures x in BackendView(heap).kids[n] <==> Links(heap, n, x)
  {
    hide BackendView;
    BackendSees(heap, n);
  }

  /** Of the links of one object, error comes before info, and info before cause. */
  lemma LinksInOrder(heap: Heap, n: nat)
    requires n in heap
    ensures var e, i, c := Get(heap[n], "error"), GetOf(heap, Get(heap[n], "info"), "error"), Get(heap[n], "cause");
            var links := BackendView(heap).kids[n];
            && (Truthy(e) ==> links != [] && links[0] == e)
            && (Truthy(i) ==> |links| > (if Truthy(e) then 1 else 0) && links[if Truthy(e) then 1 else 0] == i)
            && (Truthy(c) ==> links != [] && Last(links) == c)
            && |links| == (if Truthy(e) then 1 else 0) + (if Truthy(i) then 1 else 0) + (if Truthy(c) then 1 else 0)
  {
    hide BackendView;
    BackendSees(heap, n);
  }

  lemma BackendPath(heap: Heap, root: Value, path: seq<Value>)
    ensures IsPath(BackendView(heap), root, path) <==> ErrorPath(heap, root, path)
  {
    hide Links;
    forall i | 0 <= i < |path| - 1 && path[i].Ref? && path[i].id in heap
      ensures path[i + 1] in BackendView(heap).kids[path[i].id] <==> Links(heap, path[i].id, path[i + 1])
    {
      BackendLinks(heap, path[i].id, path[i + 1]);
    }
  }

  lemma RevertText(t: string)
    ensures IsRevertData(t) <==> |t| >= 10 && t[0] == '0' && t[1] == 'x'
  {
    if |t| >= 10 {
      assert t[..2] == [t[0], t[1]];
    }
  }

  lemma BackendHit(heap: Heap, n: nat, t: string)
    requires n in heap
    ensures BackendView(heap).hit[n] == Some(t) <==> HoldsRevertData(heap, Ref(n), t)
  {
    hide BackendView, IsRevertData;
    BackendSees(heap, n);
    RevertText(t);
  }

  /** The search ends empty-handed exactly if no path of errors, infos and causes leads to revert data. */
  lemma NoRevertDataIff(heap: Heap, root: Value)
    ensures (forall r :: !Hits(BackendView(heap), root, r))
            <==> forall path, t :: !PathToData(heap, root, path, t)
  {
    hide BackendView, PathToData, IsPath, Follow, Hits;
    if r :| Hits(BackendView(heap), root, r) {
      var path, t := RevertDataAt(heap, root, r);
    }
    if path, t :| PathToData(heap, root, path, t) {
      var r := RevertDataRoute(heap, root, path, t);
    }
  }

  lemma RevertDataAt(heap: Heap, root: Value, r: Route) returns (path: seq<Value>, t: string)
    requires Hits(BackendView(heap), root, r)
    ensures PathToData(heap, root, path, t) && |path| == Depth(r) + 1
    ensures t == AnswerAt(BackendView(heap), root, r)
  {
    hide ErrorPath, IsPath, HoldsRevertData;
    path := RouteToPath(BackendView(heap), root, r);
    t := AnswerAt(BackendView(heap), root, r);
    BackendPath(heap, root, path);
    BackendHit(heap, Last(path).id, t);
  }

  lemma RevertDataRoute(heap: Heap, root: Value, path: seq<Value>, t: string) returns (r: Route)
    requires PathToData(heap, root, path, t)
    ensures Hits(BackendView(heap), root, r) && Depth(r) + 1 == |path|
  {
    hide ErrorPath, IsPath, Follow, Depth;
    BackendPath(heap, root, path);
    r := PathToRoute(BackendView(heap), root, path);
    BackendHit(heap, Last(path).id, t);
    BackendSees(heap, Last(path).id);
  }

  /** And otherwise its answer is revert data at the end of a shortest such path. */
  lemma RevertDataIsNearest(heap: Heap, root: Value, at: Route, other: seq<Value>, u: string)
    returns (path: seq<Value>)
    requires FirstHit(BackendView(heap), root, at) && PathToData(heap, root, other, u)
    ensures PathToData(heap, root, path, AnswerAt(BackendView(heap), root, at)) && |path| <= |other|
  {
    hide PathToData, BackendView;
    var t;
    path, t := RevertDataAt(heap, root, at);
    var s := RevertDataRoute(heap, root, other, u);
    FirstHitIsNearest(BackendView(heap), root, at, s);
  }

  // ---- frontend ----

  /** A truthy cause, or any object among the values of the object. */
  predicate Holds(heap: Heap, n: nat, x: Value)
    requires n in heap
  {
    (IsSomething(x) && Has(heap[n], "cause", x)) || (x.Ref? && x in heap[n].entries)
  }

  ghost predicate FieldPath(heap: Heap, root: Value, path: seq<Value>)
  {
    && path != [] && path[0] == root
    && forall i :: 0 <= i < |path| - 1 ==>
         path[i].Ref? && path[i].id in heap && Holds(heap, path[i].id, path[i + 1])
  }

  /** The texts that are searched for a name, in their order. */
  predicate Candidate(heap: Heap, o: Object, k: nat, x: Value)
  {
    match k
    case 0 => Has(o, "shortMessage", x)
    case 1 => Has(o, "message", x)
    case 2 => Has(o, "details", x)
    case _ =>
      && "metaMessages" in o.props
      && var meta := o.props["metaMessages"];
      && meta.Ref? && meta.id in heap && heap[meta.id].isArray
      && k - 3 < |heap[meta.id].entries| && x == heap[meta.id].entries[k - 3]
  }

  ghost predicate Mentions(x: Value, name: string)
  {
    x.Text? && exists a: nat, b: nat :: NamesError(x.text, a, b) && name == x.text[a..b] && FirstIn(x.text, a)
  }

  ghost predicate FirstIn(t: string, a: nat)
  {
    forall c: nat, d: nat :: c < a ==> !NamesError(t, c, d)
  }

  ghost predicate MentionsAny(x: Value)
  {
    x.Text? && exists a: nat, b: nat :: NamesError(x.text, a, b)
  }

  predicate OwnName(o: Object)
  {
    "errorName" in o.props && o.props["errorName"].Text?
  }

  /** The name an object gives: its own, or else the first one mentioned in the first text that mentions any. */
  ghost predicate GivesName(heap: Heap, o: Object, name: string)
  {
    if OwnName(o) then Has(o, "errorName", Value.Text(name))
    else
      exists k: nat, x ::
        && Candidate(heap, o, k, x) && Mentions(x, name)
        && forall j: nat, y :: j < k && Candidate(heap, o, j, y) ==> !MentionsAny(y)
  }

  lemma TokenOf(x: Value)
    requires x.Text?
    ensures ErrorToken(x.text, 0).None? ==> !MentionsAny(x)
    ensures ErrorToken(x.text, 0).Some? ==> Mentions(x, ErrorToken(x.text, 0).value) && MentionsAny(x)
  {
    ErrorTokenIsFirstMatch(x.text, 0);
  }

  lemma {:induction false} FirstTokenIsFirst(texts: seq<Value>) returns (k: nat)
    ensures FirstToken(texts).None? ==> k == |texts|
    ensures FirstToken(texts).Some? ==> k < |texts| && Mentions(texts[k], FirstToken(texts).value)
    ensures forall j :: 0 <= j < k && j < |texts| ==> !MentionsAny(texts[j])
  {
    hide Mentions, MentionsAny;
    if texts == [] {
      k := 0;
    } else {
      assert !texts[0].Text? ==> !MentionsAny(texts[0]) by {
        NotText(texts[0]);
      }
      if texts[0].Text? {
        TokenOf(texts[0]);
      }
      if texts[0].Text? && ErrorToken(texts[0].text, 0).Some? {
        k := 0;
      } else {
        var i := FirstTokenIsFirst(texts[1..]);
        k := i + 1;
      }
    }
  }

  lemma NotText(x: Value)
    ensures !x.Text? ==> !MentionsAny(x)
  {
  }

  lemma CandidateAt(heap: Heap, o: Object, k: nat, x: Value)
    requires x.Text?
    ensures Candidate(heap, o, k, x) <==> k < |TextCandidates(heap, o)| && TextCandidates(heap, o)[k] == x
  {
  }

  lemma MentionsOne(x: Value, a: string)
    requires Mentions(x, a)
    ensures MentionsAny(x)
  {
  }

  /** The name that the search takes from an object. */
  lemma ErrorNameIff(heap: Heap, o: Object)
    ensures ErrorName(heap, o).Some? ==> GivesName(heap, o, ErrorName(heap, o).value)
    ensures ErrorName(heap, o).None? ==> forall name :: !GivesName(heap, o, name)
  {
    hide Candidate, Mentions, MentionsAny, TextCandidates;
    if !OwnName(o) {
      var texts := TextCandidates(heap, o);
      var k := FirstTokenIsFirst(texts);
      forall j: nat, y: Value | y.Text?
        ensures Candidate(heap, o, j, y) <==> j < |texts| && texts[j] == y
      {
        CandidateAt(heap, o, j, y);
      }
      forall y: Value | !y.Text?
        ensures !MentionsAny(y)
      {
        NotText(y);
      }
      if ErrorName(heap, o).Some? {
        MentionsOne(texts[k], ErrorName(heap, o).value);
        assert Candidate(heap, o, k, texts[k]) && Mentions(texts[k], ErrorName(heap, o).value);
      } else {
        forall j: nat, y, name | Candidate(heap, o, j, y)
          ensures !Mentions(y, name)
        {
          if Mentions(y, name) {
            MentionsOne(y, name);
          }
        }
      }
    }
  }

  lemma FrontendLinks(heap: Heap, n: nat, x: Value)
    requires n in heap
    ensures x in FrontendView(heap).kids[n] <==> Holds(heap, n, x)
  {
    FrontendSees(heap, n);
  }

  lemma FrontendPath(heap: Heap, root: Value, path: seq<Value>)
    ensures IsPath(FrontendView(heap), root, path) <==> FieldPath(heap, root, path)
  {
    hide Holds;
    forall i | 0 <= i < |path| - 1 && path[i].Ref? && path[i].id in heap
      ensures path[i + 1] in FrontendView(heap).kids[path[i].id] <==> Holds(heap, path[i].id, path[i + 1])
    {
      FrontendLinks(heap, path[i].id, path[i + 1]);
    }
  }

  lemma NameAt(heap: Heap, root: Value, r: Route) returns (path: seq<Value>)
    requires Hits(FrontendView(heap), root, r)
    ensures FieldPath(heap, root, path) && Last(path).Ref? && Last(path).id in heap && |path| == Depth(r) + 1
    ensures GivesName(heap, heap[Last(path).id], AnswerAt(FrontendView(heap), root, r))
  {
    hide FieldPath, IsPath, GivesName, ErrorName;
    path := RouteToPath(FrontendView(heap), root, r);
    FrontendPath(heap, root, path);
    FrontendSees(heap, Last(path).id);
    ErrorNameIff(heap, heap[Last(path).id]);
  }

  lemma NameRoute(heap: Heap, root: Value, path: seq<Value>, name: string) returns (r: Route)
    requires FieldPath(heap, root, path) && Last(path).Ref? && Last(path).id in heap
    requires GivesName(heap, heap[Last(path).id], name)
    ensures Hits(FrontendView(heap), root, r) && Depth(r) + 1 == |path|
  {
    hide FieldPath, IsPath, GivesName, ErrorName, Follow, Depth;
    FrontendPath(heap, root, path);
    r := PathToRoute(FrontendView(heap), root, path);
    FrontendSees(heap, Last(path).id);
    ErrorNameIff(heap, heap[Last(path).id]);
  }

  ghost predicate PathToName(heap: Heap, root: Value, path: seq<Value>, name: string)
  {
    && FieldPath(heap, root, path) && Last(path).Ref? && Last(path).id in heap
    && GivesName(heap, heap[Last(path).id], name)
  }

  /** The frontend's search ends empty-handed exactly if no object in reach gives a name. */
  lemma NoNameIff(heap: Heap, root: Value)
    ensures (forall r :: !Hits(FrontendView(heap), root, r))
            <==> forall path, name :: !PathToName(heap, root, path, name)
  {
    hide FrontendView, FieldPath, GivesName, Follow, Hits;
    if r :| Hits(FrontendView(heap), root, r) {
      var path := NameAt(heap, root, r);
      assert PathToName(heap, root, path, AnswerAt(FrontendView(heap), root, r));
    }
    if path, name :| PathToName(heap, root, path, name) {
      var r := NameRoute(heap, root, path, name);
    }
  }

  /** And otherwise its answer is a name given at the end of a shortest path. */
  lemma NameIsNearest(heap: Heap, root: Value, at: Route, other: seq<Value>, u: string) returns (path: seq<Value>)
    requires FirstHit(FrontendView(heap), root, at) && PathToName(heap, root, other, u)
    ensures PathToName(heap, root, path, AnswerAt(FrontendView(heap), root, at)) && |path| <= |other|
  {
    hide FieldPath, GivesName, FrontendView;
    path := NameAt(heap, root, at);
    var s := NameRoute(heap, root, other, u);
    FirstHitIsNearest(FrontendView(heap), root, at, s);
  }
}
