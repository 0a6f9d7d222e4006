/**
 * The two searches for a revert reason inside a nested error object: the
 * backend's search for revert data and the frontend's search for an error name.
 * Both loops are proved against the first hit of Traversal.
 */
module ErrorSearch {
  import opened Options
  import opened Traversal

  /**
   * A JavaScript object: the properties it answers to, the values that
   * Object.values lists (in order), and whether it is an array.
   */
  datatype Object = Object(props: map<string, Value>, entries: seq<Value>, isArray: bool)

  predicate NoDangling(heap: map<nat, Object>)
  {
    forall n :: n in heap ==>
      && (forall k :: k in heap[n].props ==> heap[n].props[k].Ref? ==> heap[n].props[k].id in heap)
      && (forall x :: x in heap[n].entries ==> x.Ref? ==> x.id in heap)
  }

  /** A finite heap without dangling references; cycles are allowed. */
  type Heap = h: map<nat, Object> | NoDangling(h) witness map[]

  function Get(o: Object, name: string): Value
  {
    if name in o.props then o.props[name] else Nullish
  }

  /** Optional chaining: a property of a value that may not be an object. */
  function GetOf(heap: Heap, x: Value, name: string): Value
  {
    if x.Ref? && x.id in heap then Get(heap[x.id], name) else Nullish
  }

  predicate Truthy(x: Value)
  {
    match x
    case Nullish => false
    case Primitive(b) => b
    case Text(t) => t != ""
    case Ref(_) => true
  }

  function IfTruthy(x: Value): seq<Value>
  {
    if Truthy(x) then [x] else []
  }

  // ---- backend: revert data ----

  predicate IsRevertData(t: string)
  {
    |t| >= 10 && t[..2] == "0x"
  }

  function RevertData(o: Object): Option<string>
  {
    var d := Get(o, "data");
    if d.Text? && IsRevertData(d.text) then Some(d.text) else None
  }

  function ErrorLinks(heap: Heap, n: nat): (r: seq<Value>)
    requires n in heap
    ensures forall x :: x in r && x.Ref? ==> x.id in heap
  {
    IfTruthy(Get(heap[n], "error"))
    + IfTruthy(GetOf(heap, Get(heap[n], "info"), "error"))
    + IfTruthy(Get(heap[n], "cause"))
  }

  ghost function BackendView(heap: Heap): (v: View)
    ensures WellFormed(v)
  {
    View(map n | n in heap :: ErrorLinks(heap, n), map n | n in heap :: RevertData(heap[n]))
  }

  lemma BackendSees(heap: Heap, n: nat)
    requires n in heap
    ensures n in BackendView(heap).kids && BackendView(heap).kids[n] == ErrorLinks(heap, n)
    ensures n in BackendView(heap).hit && BackendView(heap).hit[n] == RevertData(heap[n])
  {
  }

  lemma BackendKnows(heap: Heap, x: Value)
    ensures Known(BackendView(heap), x) <==> (x.Ref? ==> x.id in heap)
  {
  }

  ghost predicate NoRepeats(s: seq<nat>)
  {
    forall i, j :: 0 <= i < j < |s| ==> s[i] != s[j]
  }

  /** The three pushes, each guarded by its own truth test. */
  method PushLinks(heap: Heap, queue: seq<Value>, n: nat) returns (longer: seq<Value>)
    requires n in heap
    ensures longer == queue + ErrorLinks(heap, n)
  {
    longer := queue;
    if Truthy(Get(heap[n], "error")) {
      longer := longer + [Get(heap[n], "error")];
    }
    if Truthy(GetOf(heap, Get(heap[n], "info"), "error")) {
      longer := longer + [GetOf(heap, Get(heap[n], "info"), "error")];
    }
    if Truthy(Get(heap[n], "cause")) {
      longer := longer + [Get(heap[n], "cause")];
    }
  }

  /**
   * Null exactly when no reachable object holds revert data, and otherwise the
   * data of the first such object; no object is examined twice.
   */
  method ExtractBlockchainErrorData(heap: Heap, error: Value)
    returns (found: Option<string>, ghost at: Route, ghost examined: seq<nat>)
    requires error.Ref? ==> error.id in heap
    ensures found.None? ==> forall r :: !Hits(BackendView(heap), error, r)
    ensures found.None? ==> forall r, n :: Leads(BackendView(heap), error, r, n) ==> n in examined
    ensures found.Some? ==>
              FirstHit(BackendView(heap), error, at) && found.value == AnswerAt(BackendView(heap), error, at)
    ensures NoRepeats(examined)
  {
    hide Running, WellFormed, FirstHit, Hits, BackendView, Known, AnswerAt, Leads, ErrorLinks;
    found, at, examined := None, Start, [];
    ghost var v := BackendView(heap);
    if !error.Ref? {
      forall r
        ensures !Hits(v, error, r)
      {
        OnlyTheStart(v, error, r);
      }
      forall r, n
        ensures !Leads(v, error, r, n)
      {
        OnlyTheStart(v, error, r);
      }
      return;
    }
    var queue, visited := [error], {};
    BackendKnows(heap, error);
    ghost var s := Begin(error);
    BeginRuns(v, error);
    while queue != []
      invariant Running(v, error, s) && s.queue == queue && s.home.Keys == visited
      invariant NoRepeats(examined) && forall n :: n in examined <==> n in visited
      decreases heap.Keys - visited, |queue|
    {
      Head(v, error, s);
      var current := queue[0];
      BackendKnows(heap, current);
      queue := queue[1..];
      if !current.Ref? || current.id in visited {
        SkipRuns(v, error, s);
        s := Skip(s);
        continue;
      }
      visited := visited + {current.id};
      examined := examined + [current.id];
      var o := heap[current.id];
      BackendSees(heap, current.id);
      var data := Get(o, "data");
      if data.Text? && |data.text| >= 2 && data.text[..2] == "0x" && |data.text| >= 10 {
        HeadIsFirst(v, error, s);
        return Some(data.text), s.routes[0], examined;
      }
      VisitRuns(v, error, s);
      s := Visit(v, s);
      queue := PushLinks(heap, queue, current.id);
    }
    forall r
      ensures !Hits(v, error, r)
    {
      NothingLeft(v, error, s, r);
    }
    forall r, n | Leads(v, error, r, n)
      ensures n in examined
    {
      NothingLeft(v, error, s, r);
    }
  }

  lemma {:induction false} OnlyTheStart(v: View, root: Value, r: Route)
    requires !root.Ref?
    ensures !Hits(v, root, r) && forall n :: !Leads(v, root, r, n)
    ensures r.Via? ==> Follow(v, root, r).None?
  {
    if r.Via? {
      OnlyTheStart(v, root, r.prev);
    }
  }

  // ---- frontend: error names ----

  predicate IsUpper(c: char) { 'A' <= c <= 'Z' }

  predicate IsWord(c: char) { 'A' <= c <= 'Z' || 'a' <= c <= 'z' || '0' <= c <= '9' || c == '_' }

  /** t[i..j] is a capitalised word of at least two characters, not inside a longer word, before "()". */
  ghost predicate NamesError(t: string, i: nat, j: nat)
  {
    && i + 2 <= j && j + 2 <= |t|
    && IsUpper(t[i]) && (i == 0 || !IsWord(t[i - 1]))
    && (forall k :: i <= k < j ==> IsWord(t[k]))
    && t[j..j + 2] == "()"
  }

  function WordEnd(t: string, i: nat): (j: nat)
    requires i <= |t|
    ensures i <= j <= |t|
    ensures forall k :: i <= k < j ==> IsWord(t[k])
    ensures j < |t| ==> !IsWord(t[j])
    decreases |t| - i
  {
    if i < |t| && IsWord(t[i]) then WordEnd(t, i + 1) else i
  }

  predicate StartsToken(t: string, i: nat)
    requires i < |t|
  {
    && IsUpper(t[i]) && (i == 0 || !IsWord(t[i - 1]))
    && i + 2 <= WordEnd(t, i) && WordEnd(t, i) + 2 <= |t| && t[WordEnd(t, i)..WordEnd(t, i) + 2] == "()"
  }

  /** The word has to end where its characters end: the pattern has one match per position at most. */
  lemma OneTokenPerPlace(t: string, i: nat, j: nat)
    requires i < |t|
    ensures NamesError(t, i, j) <==> StartsToken(t, i) && j == WordEnd(t, i)
  {
    if NamesError(t, i, j) {
      assert t[j] == t[j..j + 2][0] == '(';
      if j < WordEnd(t, i) {
        assert false;
      }
    }
  }

  /** The first match of the pattern at or after position i. */
  function ErrorToken(t: string, i: nat): Option<string>
    requires i <= |t|
    decreases |t| - i
  {
    if i == |t| then None
    else if StartsToken(t, i) then Some(t[i..WordEnd(t, i)])
    else ErrorToken(t, i + 1)
  }

  lemma {:induction false} ErrorTokenIsFirstMatch(t: string, i: nat)
    requires i <= |t|
    ensures ErrorToken(t, i).None? ==> forall a: nat, b: nat :: i <= a ==> !NamesError(t, a, b)
    ensures ErrorToken(t, i).Some? ==> exists a: nat, b: nat ::
      i <= a && NamesError(t, a, b) && ErrorToken(t, i).value == t[a..b]
      && forall c: nat, d: nat :: i <= c < a ==> !NamesError(t, c, d)
    decreases |t| - i
  {
    if i < |t| {
      forall b: nat {
        OneTokenPerPlace(t, i, b);
      }
      if !StartsToken(t, i) {
        ErrorTokenIsFirstMatch(t, i + 1);
      }
    }
  }

  function FirstToken(texts: seq<Value>): Option<string>
  {
    if texts == [] then None
    else if texts[0].Text? && ErrorToken(texts[0].text, 0).Some? then ErrorToken(texts[0].text, 0)
    else FirstToken(texts[1..])
  }

  function TextCandidates(heap: Heap, o: Object): seq<Value>
  {
    var meta := Get(o, "metaMessages");
    [Get(o, "shortMessage"), Get(o, "message"), Get(o, "details")]
    + if meta.Ref? && meta.id in heap && heap[meta.id].isArray then heap[meta.id].entries else []
  }

  function ErrorName(heap: Heap, o: Object): Option<string>
  {
    var name := Get(o, "errorName");
    if name.Text? then Some(name.text) else FirstToken(TextCandidates(heap, o))
  }

  function ObjectsOf(entries: seq<Value>): (r: seq<Value>)
    ensures forall x :: x in r <==> x in entries && x.Ref?
  {
    if entries == [] then []
    else (if entries[0].Ref? then [entries[0]] else []) + ObjectsOf(entries[1..])
  }

  lemma ObjectsOfAppend(a: seq<Value>, x: Value)
    ensures ObjectsOf(a + [x]) == ObjectsOf(a) + (if x.Ref? then [x] else [])
  {
    if a != [] {
      assert (a + [x])[1..] == a[1..] + [x];
      ObjectsOfAppend(a[1..], x);
    }
  }

  ghost function FrontendView(heap: Heap): (v: View)
    ensures WellFormed(v)
  {
    View(map n | n in heap :: IfTruthy(Get(heap[n], "cause")) + ObjectsOf(heap[n].entries),
         map n | n in heap :: ErrorName(heap, heap[n]))
  }

  lemma FrontendSees(heap: Heap, n: nat)
    requires n in heap
    ensures n in FrontendView(heap).kids
    ensures FrontendView(heap).kids[n] == IfTruthy(Get(heap[n], "cause")) + ObjectsOf(heap[n].entries)
    ensures n in FrontendView(heap).hit && FrontendView(heap).hit[n] == ErrorName(heap, heap[n])
  {
  }

  lemma FrontendKnows(heap: Heap, x: Value)
    ensures Known(FrontendView(heap), x) <==> (x.Ref? ==> x.id in heap)
  {
  }

  /** The inner loop: every object-valued field goes to the end of the queue. */
  method PushFields(queue: seq<Value>, o: Object) returns (longer: seq<Value>)
    ensures longer == queue + ObjectsOf(o.entries)
  {
    longer := queue;
    for i := 0 to |o.entries|
      invariant longer == queue + ObjectsOf(o.entries[..i])
    {
      assert o.entries[..i + 1] == o.entries[..i] + [o.entries[i]];
      ObjectsOfAppend(o.entries[..i], o.entries[i]);
      if o.entries[i].Ref? {
        longer := longer + [o.entries[i]];
      }
    }
    assert o.entries[..|o.entries|] == o.entries;
  }

  /**
   * Null exactly when no object reachable through cause or an object-valued
   * field yields a name, and otherwise the name of the first that does.
   */
  method ExtractErrorName(heap: Heap, error: Value)
    returns (found: Option<string>, ghost at: Route, ghost examined: seq<nat>)
    requires error.Ref? ==> error.id in heap
    ensures found.None? ==> forall r :: !Hits(FrontendView(heap), error, r)
    ensures found.None? ==> forall r, n :: Leads(FrontendView(heap), error, r, n) ==> n in examined
    ensures found.Some? ==>
              FirstHit(FrontendView(heap), error, at) && found.value == AnswerAt(FrontendView(heap), error, at)
    ensures NoRepeats(examined)
  {
    hide Running, WellFormed, FirstHit, Hits, FrontendView, Known, AnswerAt, Leads, ErrorName, ObjectsOf;
    found, at, examined := None, Start, [];
    ghost var v := FrontendView(heap);
    FrontendKnows(heap, error);
    var queue, seen := [error], {};
    ghost var s := Begin(error);
    BeginRuns(v, error);
    while queue != []
      invariant Running(v, error, s) && s.queue == queue && s.home.Keys == seen
      invariant NoRepeats(examined) && forall n :: n in examined <==> n in seen
      decreases heap.Keys - seen, |queue|
    {
      Head(v, error, s);
      var current := queue[0];
      FrontendKnows(heap, current);
      queue := queue[1..];
      if !current.Ref? || current.id in seen {
        SkipRuns(v, error, s);
        s := Skip(s);
        continue;
      }
      seen := seen + {current.id};
      examined := examined + [current.id];
      var o := heap[current.id];
      FrontendSees(heap, current.id);
      var name := ErrorName(heap, o);
      if name.Some? {
        HeadIsFirst(v, error, s);
        return name, s.routes[0], examined;
      }
      VisitRuns(v, error, s);
      s := Visit(v, s);
      if Truthy(Get(o, "cause")) {
        queue := queue + [Get(o, "cause")];
      }
      queue := PushFields(queue, o);
    }
    forall r
      ensures !Hits(v, error, r)
    {
      NothingLeft(v, error, s, r);
    }
    forall r, n | Leads(v, error, r, n)
      ensures n in examined
    {
      NothingLeft(v, error, s, r);
    }
  }
}
