/** The $ref closure of dev/spec-audit/audit_required.py: which component schemas a part of an OpenAPI
    document reaches. */
module AuditClosure {
  import opened Wrappers

  /** A loaded YAML document; Scalar stands for numbers, booleans and null. */
  datatype Node =
    | Object(members: seq<Member>)
    | List(items: seq<Node>)
    | Text(text: string)
    | Scalar

  datatype Member = Member(key: string, value: Node)

  function Get(members: seq<Member>, key: string): Option<Node> {
    if members == [] then None
    else if members[0].key == key then Some(members[0].value)
    else Get(members[1..], key)
  }

  /** Every pointer under a node. */
  function Refs(node: Node): seq<string>
    decreases node, 0
  {
    match node
    case Object(members) => RefsOfMembers(members)
    case List(items) => RefsOfItems(items)
    case _ => []
  }

  function RefsOfMembers(members: seq<Member>): seq<string>
    decreases members, 1
  {
    if members == [] then []
    else
      var m := members[0];
      (if m.key == "$ref" && m.value.Text? then [m.value.text] else Refs(m.value)) + RefsOfMembers(members[1..])
  }

  function RefsOfItems(items: seq<Node>): seq<string>
    decreases items, 1
  {
    if items == [] then [] else Refs(items[0]) + RefsOfItems(items[1..])
  }

  function SplitOn(s: string, stop: char): (r: seq<string>)
    ensures r != []
  {
    if s == [] then [[]]
    else
      var rest := SplitOn(s[1..], stop);
      if s[0] == stop then [[]] + rest else [[s[0]] + rest[0]] + rest[1..]
  }

  function Last(s: seq<string>): string
    requires s != []
  {
    s[|s| - 1]
  }

  /** lstrip("#/"): strips both characters, however many there are. */
  function Stripped(s: string): string {
    if s != [] && (s[0] == '#' || s[0] == '/') then Stripped(s[1..]) else s
  }

  /** None where Python raises: a key that is not there, or a node that has no keys. */
  function Walk(node: Node, parts: seq<string>): Option<Node>
    decreases |parts|
  {
    if parts == [] then Some(node)
    else if !node.Object? then None
    else
      var next := Get(node.members, parts[0]);
      if next.None? then None else Walk(next.value, parts[1..])
  }

  function Resolve(spec: Node, pointer: string): Option<Node> {
    Walk(spec, SplitOn(Stripped(pointer), '/'))
  }

  const SCHEMAS := "#/components/schemas/"

  predicate InSchemas(pointer: string) {
    SCHEMAS <= pointer
  }

  function NameOf(pointer: string): string {
    Last(SplitOn(pointer, '/'))
  }

  // -------------------------------------------------------------------------------- reachability

  predicate Edge(spec: Node, a: string, b: string) {
    Resolve(spec, a).Some? && b in Refs(Resolve(spec, a).value)
  }

  ghost predicate IsPath(spec: Node, path: seq<string>, seeds: seq<string>, p: string) {
    && path != [] && path[0] in seeds && path[|path| - 1] == p
    && forall i :: 0 < i < |path| ==> Edge(spec, path[i - 1], path[i])
  }

  /** A chain of references leads from a seed to p. */
  ghost predicate Reachable(spec: Node, seeds: seq<string>, p: string) {
    exists path :: IsPath(spec, path, seeds, p)
  }

  lemma SeedsReachable(spec: Node, seeds: seq<string>, p: string)
    requires p in seeds
    ensures Reachable(spec, seeds, p)
  {
    assert IsPath(spec, [p], seeds, p);
  }

  lemma EdgeReaches(spec: Node, seeds: seq<string>, a: string, b: string)
    requires Reachable(spec, seeds, a) && Edge(spec, a, b)
    ensures Reachable(spec, seeds, b)
  {
    var path :| IsPath(spec, path, seeds, a);
    assert IsPath(spec, path + [b], seeds, b);
  }

  ghost predicate Closed(spec: Node, seeds: seq<string>, seen: set<string>) {
    && (forall p :: p in seeds ==> p in seen)
    && forall a, b :: a in seen && Edge(spec, a, b) ==> b in seen
  }

  lemma {:induction false} PathStays(spec: Node, seeds: seq<string>, seen: set<string>, path: seq<string>, p: string)
    requires Closed(spec, seeds, seen) && IsPath(spec, path, seeds, p)
    ensures p in seen
    decreases |path|
  {
    if |path| > 1 {
      var n := |path| - 1;
      assert IsPath(spec, path[..n], seeds, path[n - 1]);
      PathStays(spec, seeds, seen, path[..n], path[n - 1]);
      assert Edge(spec, path[n - 1], path[n]);
    }
  }

  // ------------------------------------------------------------- references come from the document

  lemma {:induction false} GetRefs(members: seq<Member>, key: string)
    requires Get(members, key).Some?
    ensures Elems(Refs(Get(members, key).value)) <= Elems(RefsOfMembers(members))
  {
    if members[0].key != key {
      GetRefs(members[1..], key);
    }
  }

  lemma {:induction false} WalkRefs(node: Node, parts: seq<string>)
    requires Walk(node, parts).Some?
    ensures Elems(Refs(Walk(node, parts).value)) <= Elems(Refs(node))
    decreases |parts|
  {
    if parts != [] {
      var next := Get(node.members, parts[0]);
      GetRefs(node.members, parts[0]);
      WalkRefs(next.value, parts[1..]);
    }
  }

  // ------------------------------------------------------------------------------------- closure

  ghost predicate NamesOf(schemas: set<string>, seen: set<string>) {
    && (forall p :: p in seen && InSchemas(p) ==> NameOf(p) in schemas)
    && forall n :: n in schemas ==> exists p :: p in seen && InSchemas(p) && NameOf(p) == n
  }

  /** The worklist, seen from outside: everything met is reachable, and what was seen is done. */
  ghost predicate Working(spec: Node, seeds: seq<string>, pending: seq<string>, seen: set<string>,
                          schemas: set<string>) {
    && (forall p :: p in seeds ==> p in seen || p in pending)
    && (forall p :: p in seen || p in pending ==> Reachable(spec, seeds, p))
    && (forall p :: p in seen ==> Resolve(spec, p).Some?)
    && (forall a, b :: a in seen && Edge(spec, a, b) ==> b in seen || b in pending)
    && NamesOf(schemas, seen)
  }

  ghost predicate Within(pointers: seq<string>, all: set<string>) {
    forall i :: 0 <= i < |pointers| ==> pointers[i] in all
  }

  lemma RefsWithin(spec: Node, pointer: string, pending: seq<string>, all: set<string>)
    requires Resolve(spec, pointer).Some? && Within(pending, all) && Elems(Refs(spec)) <= all
    ensures Within(pending + Refs(Resolve(spec, pointer).value), all)
  {
    WalkRefs(spec, SplitOn(Stripped(pointer), '/'));
    var refs := Refs(Resolve(spec, pointer).value);
    forall i | 0 <= i < |refs| ensures refs[i] in all {
      assert refs[i] in Elems(refs);
    }
  }

  lemma StartWorks(spec: Node, seeds: seq<string>)
    ensures Working(spec, seeds, seeds, {}, {})
  {
    forall p | p in seeds ensures Reachable(spec, seeds, p) {
      SeedsReachable(spec, seeds, p);
    }
  }

  lemma NothingPending(spec: Node, seeds: seq<string>, seen: set<string>, schemas: set<string>)
    requires Working(spec, seeds, [], seen, schemas)
    ensures forall p :: Reachable(spec, seeds, p) <==> p in seen
    ensures NamedBy(schemas, spec, seeds) && !Dangles(spec, seeds)
  {
    forall p | Reachable(spec, seeds, p) ensures p in seen {
      var path :| IsPath(spec, path, seeds, p);
      PathStays(spec, seeds, seen, path, p);
    }
  }

  ghost predicate NamedBy(names: set<string>, spec: Node, seeds: seq<string>) {
    forall n :: n in names <==> exists p :: Reachable(spec, seeds, p) && InSchemas(p) && NameOf(p) == n
  }

  ghost predicate Dangles(spec: Node, seeds: seq<string>) {
    exists p :: Reachable(spec, seeds, p) && Resolve(spec, p).None?
  }

  /** Fails exactly when a dangling pointer is reachable; otherwise gives the names of all reachable
      schema pointers, and no others, however the references loop. */
  method Closure(spec: Node, seeds: seq<string>) returns (r: Option<set<string>>)
    ensures r.None? <==> Dangles(spec, seeds)
    ensures r.Some? ==> NamedBy(r.value, spec, seeds)
  {
    var pending, seen, schemas := seeds, {}, {};
    ghost var all := Elems(seeds) + Elems(Refs(spec));
    StartWorks(spec, seeds);
    while pending != []
      invariant Working(spec, seeds, pending, seen, schemas)
      invariant seen <= all && Within(pending, all)
      decreases all - seen, |pending|
    {
      var ok: bool;
      ok, pending, seen, schemas := Visit(spec, seeds, pending, seen, schemas, all);
      if !ok {
        return None;
      }
    }
    NothingPending(spec, seeds, seen, schemas);
    return Some(schemas);
  }

  /** One turn of the loop: the last pending pointer is taken, and what it refers to added. */
  method Visit(spec: Node, ghost seeds: seq<string>, pending: seq<string>, seen: set<string>, schemas: set<string>,
               ghost all: set<string>)
    returns (ok: bool, pending': seq<string>, seen': set<string>, schemas': set<string>)
    requires pending != [] && Working(spec, seeds, pending, seen, schemas)
    requires seen <= all && Within(pending, all) && Elems(Refs(spec)) <= all
    ensures !ok ==> Dangles(spec, seeds)
    ensures ok ==> Working(spec, seeds, pending', seen', schemas') && seen' <= all && Within(pending', all)
    ensures ok ==> seen < seen' || (seen == seen' && |pending'| < |pending|)
  {
    var pointer := pending[|pending| - 1];
    pending', seen', schemas' := pending[..|pending| - 1], seen, schemas;
    assert pending == pending' + [pointer];
    if pointer in seen {
      StepSkips(spec, seeds, pending, pending', seen, schemas, pointer);
      return true, pending', seen', schemas';
    }
    var node := Resolve(spec, pointer);
    if node.None? {
      assert Reachable(spec, seeds, pointer);
      return false, pending', seen', schemas';
    }
    StepWorks(spec, seeds, pending, pending', seen, schemas, pointer);
    RefsWithin(spec, pointer, pending', all);
    if InSchemas(pointer) {
      schemas' := schemas + {NameOf(pointer)};
    }
    return true, pending' + Refs(node.value), seen + {pointer}, schemas';
  }

  lemma StepSkips(spec: Node, seeds: seq<string>, before: seq<string>, pending: seq<string>, seen: set<string>,
                  schemas: set<string>, pointer: string)
    requires Working(spec, seeds, before, seen, schemas) && before == pending + [pointer] && pointer in seen
    ensures Working(spec, seeds, pending, seen, schemas)
  {
    assert forall p :: p in before <==> p in pending || p == pointer;
  }

  lemma StepWorks(spec: Node, seeds: seq<string>, before: seq<string>, pending: seq<string>, seen: set<string>,
                  schemas: set<string>, pointer: string)
    requires Working(spec, seeds, before, seen, schemas) && before == pending + [pointer]
    requires Resolve(spec, pointer).Some?
    ensures Working(spec, seeds, pending + Refs(Resolve(spec, pointer).value), seen + {pointer},
                    if InSchemas(pointer) then schemas + {NameOf(pointer)} else schemas)
  {
    assert forall p :: p in before <==> p in pending || p == pointer;
    var found := Refs(Resolve(spec, pointer).value);
    forall p | p in found ensures Reachable(spec, seeds, p) {
      EdgeReaches(spec, seeds, pointer, p);
    }
    var now := if InSchemas(pointer) then schemas + {NameOf(pointer)} else schemas;
    forall n | n in now ensures exists p :: p in seen + {pointer} && InSchemas(p) && NameOf(p) == n {
      if n in schemas {
        var p :| p in seen && InSchemas(p) && NameOf(p) == n;
        assert p in seen + {pointer};
      } else {
        assert pointer in seen + {pointer};
      }
    }
  }

  // -------------------------------------------------------------------------------- schema names

  lemma {:induction false} PiecesHaveNoStop(s: string, stop: char, i: nat)
    requires i < |SplitOn(s, stop)|
    ensures stop !in SplitOn(s, stop)[i]
  {
    if s != [] {
      var rest := SplitOn(s[1..], stop);
      if s[0] == stop {
        if i > 0 {
          PiecesHaveNoStop(s[1..], stop, i - 1);
        }
      } else {
        PiecesHaveNoStop(s[1..], stop, i);
      }
    }
  }

  lemma {:induction false} SplitWhole(s: string, stop: char)
    requires stop !in s
    ensures SplitOn(s, stop) == [s]
  {
    if s != [] {
      assert s[0] in s;
      SplitWhole(s[1..], stop);
      assert [s[0]] + s[1..] == s;
    }
  }

  lemma {:induction false} SplitAppend(a: string, b: string, stop: char)
    requires stop !in b
    ensures SplitOn(a + [stop] + b, stop) == SplitOn(a, stop) + [b]
  {
    if a == [] {
      SplitWhole(b, stop);
      assert a + [stop] + b == [stop] + b && ([stop] + b)[1..] == b;
    } else {
      SplitAppend(a[1..], b, stop);
      assert (a + [stop] + b)[1..] == a[1..] + [stop] + b;
    }
  }

  lemma {:induction false} SplitFirst(a: string, b: string, stop: char)
    requires stop !in a
    ensures SplitOn(a + [stop] + b, stop) == [a] + SplitOn(b, stop)
  {
    if a == [] {
      assert a + [stop] + b == [stop] + b && ([stop] + b)[1..] == b;
    } else {
      assert a[0] in a;
      SplitFirst(a[1..], b, stop);
      assert (a + [stop] + b)[1..] == a[1..] + [stop] + b;
      assert [a[0]] + a[1..] == a;
    }
  }

  /** The reference is to a schema, not to a place inside one. */
  predicate Flat(pointer: string) {
    InSchemas(pointer) && '/' !in pointer[|SCHEMAS|..]
  }

  lemma SchemaPointer(name: string)
    requires '/' !in name
    ensures Flat(SCHEMAS + name) && NameOf(SCHEMAS + name) == name
  {
    assert SCHEMAS[|SCHEMAS| - 1] == '/';
    LastWord(SCHEMAS, name);
    assert (SCHEMAS + name)[|SCHEMAS|..] == name;
  }

  lemma LastWord(front: string, word: string)
    requires front != [] && front[|front| - 1] == '/' && '/' !in word
    ensures NameOf(front + word) == word
  {
    var n := |front| - 1;
    SplitAppend(front[..n], word, '/');
    assert front + word == front[..n] + ['/'] + word;
  }

  lemma FlatIsNamed(pointer: string)
    requires Flat(pointer)
    ensures pointer == SCHEMAS + NameOf(pointer)
  {
    assert pointer == SCHEMAS + pointer[|SCHEMAS|..];
    SchemaPointer(pointer[|SCHEMAS|..]);
  }

  lemma NameHasNoSlash(pointer: string)
    ensures '/' !in NameOf(pointer)
  {
    PiecesHaveNoStop(pointer, '/', |SplitOn(pointer, '/')| - 1);
  }

  /** The names are exactly the schemas referred to. */
  ghost predicate Exact(names: set<string>, spec: Node, seeds: seq<string>) {
    forall n :: n in names <==> '/' !in n && Reachable(spec, seeds, SCHEMAS + n)
  }

  /** They are exactly when every pointer reached inside a schema ends in the name of a schema that
      is referred to as well. */
  lemma NamesAreSchemasIff(spec: Node, seeds: seq<string>, names: set<string>)
    requires NamedBy(names, spec, seeds)
    ensures Exact(names, spec, seeds) <==>
            forall p ::
              Reachable(spec, seeds, p) && InSchemas(p) && !Flat(p) ==> Reachable(spec, seeds, SCHEMAS + NameOf(p))
  {
    forall n | '/' !in n && Reachable(spec, seeds, SCHEMAS + n) ensures n in names {
      SchemaPointer(n);
    }
    forall p ensures '/' !in NameOf(p) && (Flat(p) ==> p == SCHEMAS + NameOf(p)) {
      NameHasNoSlash(p);
      if Flat(p) {
        FlatIsNamed(p);
      }
    }
  }

  lemma {:induction false} ReachableIsMentioned(spec: Node, seeds: seq<string>, path: seq<string>, p: string)
    requires IsPath(spec, path, seeds, p)
    ensures p in seeds || p in Refs(spec)
  {
    if |path| > 1 {
      var a := path[|path| - 2];
      assert Edge(spec, path[|path| - 1 - 1], path[|path| - 1]);
      WalkRefs(spec, SplitOn(Stripped(a), '/'));
      assert p in Elems(Refs(Resolve(spec, a).value));
    }
  }

  /** A document that refers to schemas by flat pointers only gets exact names. */
  lemma FlatDocumentsAreExact(spec: Node, seeds: seq<string>, names: set<string>)
    requires NamedBy(names, spec, seeds)
    requires forall p :: (p in seeds || p in Refs(spec)) && InSchemas(p) ==> Flat(p)
    ensures Exact(names, spec, seeds)
  {
    forall p | Reachable(spec, seeds, p) && InSchemas(p) ensures Flat(p) {
      var path :| IsPath(spec, path, seeds, p);
      ReachableIsMentioned(spec, seeds, path, p);
    }
    NamesAreSchemasIff(spec, seeds, names);
  }

  // ----------------------------------------------------------------------------------- partition

  const METHODS: set<string> := {"get", "put", "post", "patch", "delete", "head", "options"}

  /** node.get(key), with None as an empty node. */
  function GetOr(members: seq<Member>, key: string): Node {
    if Get(members, key).Some? then Get(members, key).value else Scalar
  }

  datatype Seeds = Seeds(request: seq<string>, response: seq<string>)

  function Joined(a: Option<Seeds>, b: Option<Seeds>): Option<Seeds> {
    if a.None? || b.None? then None
    else Some(Seeds(a.value.request + b.value.request, a.value.response + b.value.response))
  }

  function SeedsOfOp(m: Member, shared: Node): Option<Seeds> {
    if m.key !in METHODS then Some(Seeds([], []))
    else if !m.value.Object? then None
    else
      var op := m.value.members;
      Some(Seeds(Refs(List([GetOr(op, "requestBody"), GetOr(op, "parameters"), shared])),
                 Refs(GetOr(op, "responses"))))
  }

  function SeedsOfOps(ops: seq<Member>, shared: Node): Option<Seeds> {
    if ops == [] then Some(Seeds([], []))
    else Joined(SeedsOfOps(ops[..|ops| - 1], shared), SeedsOfOp(ops[|ops| - 1], shared))
  }

  function SeedsOfPath(item: Node): Option<Seeds> {
    if item.Object? then SeedsOfOps(item.members, GetOr(item.members, "parameters")) else None
  }

  function SeedsOfPaths(paths: seq<Member>): Option<Seeds> {
    if paths == [] then Some(Seeds([], []))
    else Joined(SeedsOfPaths(paths[..|paths| - 1]), SeedsOfPath(paths[|paths| - 1].value))
  }

  /** Where the two closures start; None where Python raises on a document of another shape. */
  function SeedsOf(spec: Node): Option<Seeds> {
    if !spec.Object? then None
    else
      var paths := if Get(spec.members, "paths").Some? then Get(spec.members, "paths").value else Object([]);
      if paths.Object? then SeedsOfPaths(paths.members) else None
  }

  lemma {:induction false} OpsFail(ops: seq<Member>, shared: Node, n: nat)
    requires n <= |ops| && SeedsOfOps(ops[..n], shared).None?
    ensures SeedsOfOps(ops, shared).None?
  {
    if n == |ops| {
      assert ops[..n] == ops;
    } else {
      assert ops[..|ops| - 1][..n] == ops[..n];
      OpsFail(ops[..|ops| - 1], shared, n);
    }
  }

  lemma {:induction false} PathsFail(paths: seq<Member>, n: nat)
    requires n <= |paths| && SeedsOfPaths(paths[..n]).None?
    ensures SeedsOfPaths(paths).None?
  {
    if n == |paths| {
      assert paths[..n] == paths;
    } else {
      assert paths[..|paths| - 1][..n] == paths[..n];
      PathsFail(paths[..|paths| - 1], n);
    }
  }

  /** The operation says so: its body, its parameters or those of its path for a request, its
      responses for a response. */
  predicate Says(m: Member, shared: Node, request: bool, p: string) {
    && m.key in METHODS && m.value.Object?
    && if request then
         || p in Refs(GetOr(m.value.members, "requestBody"))
         || p in Refs(GetOr(m.value.members, "parameters"))
         || p in Refs(shared)
       else p in Refs(GetOr(m.value.members, "responses"))
  }

  predicate PathSays(item: Node, request: bool, p: string) {
    item.Object? && exists m :: m in item.members && Says(m, GetOr(item.members, "parameters"), request, p)
  }

  lemma InboundRefs(a: Node, b: Node, c: Node)
    ensures Refs(List([a, b, c])) == Refs(a) + Refs(b) + Refs(c)
  {
    RefsOfMore(a, [b, c]);
    RefsOfMore(b, [c]);
    RefsOfMore(c, []);
    assert [a] + [b, c] == [a, b, c] && [b] + [c] == [b, c] && [c] + [] == [c];
  }

  lemma RefsOfMore(a: Node, rest: seq<Node>)
    ensures RefsOfItems([a] + rest) == Refs(a) + RefsOfItems(rest)
  {
    assert ([a] + rest)[1..] == rest;
  }

  lemma OneOp(m: Member, shared: Node, p: string)
    requires SeedsOfOp(m, shared).Some?
    ensures p in SeedsOfOp(m, shared).value.request <==> Says(m, shared, true, p)
    ensures p in SeedsOfOp(m, shared).value.response <==> Says(m, shared, false, p)
  {
    if m.value.Object? {
      InboundRefs(GetOr(m.value.members, "requestBody"), GetOr(m.value.members, "parameters"), shared);
    }
  }

  function SideOf(s: Seeds, request: bool): seq<string> {
    if request then s.request else s.response
  }

  lemma {:induction false} OpSeeds(ops: seq<Member>, shared: Node, request: bool, p: string)
    requires SeedsOfOps(ops, shared).Some?
    ensures p in SideOf(SeedsOfOps(ops, shared).value, request) <==> exists m :: m in ops && Says(m, shared, request, p)
  {
    if ops != [] {
      var rest, m := ops[..|ops| - 1], ops[|ops| - 1];
      OpSeeds(rest, shared, request, p);
      OneOp(m, shared, p);
      assert ops == rest + [m];
      assert p in SideOf(SeedsOfOps(ops, shared).value, request) <==>
             p in SideOf(SeedsOfOps(rest, shared).value, request) || p in SideOf(SeedsOfOp(m, shared).value, request);
    }
  }

  /** The seeds of each side are what some operation says on that side. */
  lemma {:induction false} PathSeeds(paths: seq<Member>, request: bool, p: string)
    requires SeedsOfPaths(paths).Some?
    ensures p in SideOf(SeedsOfPaths(paths).value, request) <==> exists m :: m in paths && PathSays(m.value, request, p)
  {
    if paths != [] {
      var rest, m := paths[..|paths| - 1], paths[|paths| - 1];
      PathSeeds(rest, request, p);
      OpSeeds(m.value.members, GetOr(m.value.members, "parameters"), request, p);
      assert paths == rest + [m];
    }
  }

  method CollectOps(ops: seq<Member>, shared: Node) returns (r: Option<Seeds>)
    ensures r == SeedsOfOps(ops, shared)
  {
    var req, resp := [], [];
    for i := 0 to |ops|
      invariant SeedsOfOps(ops[..i], shared) == Some(Seeds(req, resp))
    {
      assert ops[..i + 1][..i] == ops[..i];
      if ops[i].key !in METHODS {
        assert req + [] == req && resp + [] == resp;
        continue;
      }
      if !ops[i].value.Object? {
        OpsFail(ops, shared, i + 1);
        return None;
      }
      var op := ops[i].value.members;
      var inbound := List([GetOr(op, "requestBody"), GetOr(op, "parameters"), shared]);
      req, resp := req + Refs(inbound), resp + Refs(GetOr(op, "responses"));
    }
    assert ops[..|ops|] == ops;
    return Some(Seeds(req, resp));
  }

  method CollectPaths(paths: seq<Member>) returns (r: Option<Seeds>)
    ensures r == SeedsOfPaths(paths)
  {
    var req, resp := [], [];
    for i := 0 to |paths|
      invariant SeedsOfPaths(paths[..i]) == Some(Seeds(req, resp))
    {
      assert paths[..i + 1][..i] == paths[..i];
      var item := paths[i].value;
      if !item.Object? {
        PathsFail(paths, i + 1);
        return None;
      }
      var some := CollectOps(item.members, GetOr(item.members, "parameters"));
      if some.None? {
        PathsFail(paths, i + 1);
        return None;
      }
      req, resp := req + some.value.request, resp + some.value.response;
    }
    assert paths[..|paths|] == paths;
    return Some(Seeds(req, resp));
  }

  /** The two sides are the two reachabilities; what only responses reach, which the audit may
      tighten, is never reached by a request. */
  method Partition(spec: Node) returns (r: Option<(set<string>, set<string>)>)
    ensures r.None? <==>
              || SeedsOf(spec).None?
              || Dangles(spec, SeedsOf(spec).value.request) || Dangles(spec, SeedsOf(spec).value.response)
    ensures r.Some? ==>
              && NamedBy(r.value.0, spec, SeedsOf(spec).value.request)
              && NamedBy(r.value.1, spec, SeedsOf(spec).value.response)
    ensures r.Some? ==> forall p ::
              InSchemas(p) && Reachable(spec, SeedsOf(spec).value.request, p) ==> NameOf(p) !in r.value.1 - r.value.0
  {
    if !spec.Object? {
      return None;
    }
    var found := Get(spec.members, "paths");
    var paths := if found.Some? then found.value else Object([]);
    if !paths.Object? {
      return None;
    }
    var seeds := CollectPaths(paths.members);
    if seeds.None? {
      return None;
    }
    var request := Closure(spec, seeds.value.request);
    if request.None? {
      return None;
    }
    var response := Closure(spec, seeds.value.response);
    if response.None? {
      return None;
    }
    return Some((request.value, response.value));
  }

  // ------------------------------------------------------- what a pointer into a schema does

  /** Objects inside each other, one for each part. */
  function Nest(parts: seq<string>): Node {
    if parts == [] then Scalar else Object([Member(parts[0], Nest(parts[1..]))])
  }

  lemma {:induction false} NestHolds(parts: seq<string>)
    ensures Walk(Nest(parts), parts) == Some(Scalar) && Refs(Nest(parts)) == []
  {
    if parts != [] {
      NestHolds(parts[1..]);
      var m := Member(parts[0], Nest(parts[1..]));
      assert RefsOfMembers([m]) == Refs(m.value) + RefsOfMembers([m][1..]);
    }
  }

  /** A document in which the reference resolves, with one operation whose response refers to it. */
  function Referring(pointer: string): Node {
    var parts := SplitOn(Stripped(pointer), '/');
    Object([Member(parts[0], Nest(parts[1..])),
            Member("paths", Object([Member("/x", Object([Member("get", Object([Member("responses",
              Object([Member("$ref", Text(pointer))]))]))]))]))])
  }

  lemma InSchemasStarts(pointer: string)
    requires InSchemas(pointer)
    ensures SplitOn(Stripped(pointer), '/')[0] == "components"
  {
    var rest := "schemas/" + pointer[|SCHEMAS|..];
    assert pointer == "#/components/" + rest;
    var once, twice := pointer[1..], pointer[1..][1..];
    assert pointer[0] == '#' && once[0] == '/' && twice[0] == 'c';
    assert twice == "components" + ['/'] + rest;
    assert Stripped(twice) == twice && Stripped(once) == twice && Stripped(pointer) == twice;
    SplitFirst("components", rest, '/');
  }

  lemma OneMember(m: Member)
    ensures RefsOfMembers([m]) == if m.key == "$ref" && m.value.Text? then [m.value.text] else Refs(m.value)
  {
    assert [m][1..] == [];
  }

  lemma OneOperation(path: string, op: Member)
    requires SeedsOfOp(op, Scalar).Some? && op.key != "parameters"
    ensures SeedsOfPaths([Member(path, Object([op]))]) == SeedsOfOp(op, Scalar)
  {
    var item := Member(path, Object([op]));
    assert [op][..0] == [] && [op][1..] == [] && [item][..0] == [];
    assert SeedsOfOps([op], Scalar) == Joined(Some(Seeds([], [])), SeedsOfOp(op, Scalar));
    var seeds := SeedsOfOp(op, Scalar).value;
    assert [] + seeds.request == seeds.request && [] + seeds.response == seeds.response;
    assert Get([], "parameters").None? && Get([op], "parameters").None?;
    assert SeedsOfPath(item.value) == SeedsOfOp(op, Scalar);
  }

  lemma SecondMember(members: seq<Member>, key: string, value: Node)
    requires |members| == 2 && members[0].key != key && members[1] == Member(key, value)
    ensures Get(members, key) == Some(value)
  {
    assert members[1..][0] == members[1];
  }

  /** The responses of a lone operation. */
  lemma ResponseSeeds(answer: Node)
    ensures SeedsOfOp(Member("get", Object([Member("responses", answer)])), Scalar) == Some(Seeds([], Refs(answer)))
  {
    InboundRefs(Scalar, Scalar, Scalar);
    var members := [Member("responses", answer)];
    assert members[1..] == [];
    assert Get(members, "requestBody").None? && Get(members, "parameters").None?;
    assert Get(members, "responses") == Some(answer);
    assert Refs(Scalar) + Refs(Scalar) + Refs(Scalar) == [];
  }

  lemma ReferringSeeds(pointer: string)
    requires InSchemas(pointer)
    ensures SeedsOf(Referring(pointer)) == Some(Seeds([], [pointer]))
  {
    InSchemasStarts(pointer);
    var answer := Object([Member("$ref", Text(pointer))]);
    var op := Member("get", Object([Member("responses", answer)]));
    OneMember(answer.members[0]);
    ResponseSeeds(answer);
    OneOperation("/x", op);
    var spec, paths := Referring(pointer), Object([Member("/x", Object([op]))]);
    SecondMember(spec.members, "paths", paths);
  }

  /** Every pointer into the inside of a schema has a document that refers to it alone, where the
      closure gives its last word, which is no schema referred to: flat pointers are the only ones
      that are named right in every document. */
  lemma NestedPointerMisnames(pointer: string, names: set<string>)
    requires InSchemas(pointer) && !Flat(pointer)
    ensures SeedsOf(Referring(pointer)) == Some(Seeds([], [pointer]))
    ensures !Dangles(Referring(pointer), [pointer])
    ensures NamedBy(names, Referring(pointer), [pointer]) ==>
              names == {NameOf(pointer)} && !Exact(names, Referring(pointer), [pointer])
    ensures !Reachable(Referring(pointer), [pointer], SCHEMAS + NameOf(pointer))
  {
    ReferringSeeds(pointer);
    var spec, parts := Referring(pointer), SplitOn(Stripped(pointer), '/');
    NestHolds(parts[1..]);
    assert Resolve(spec, pointer) == Some(Scalar);
    forall p ensures Reachable(spec, [pointer], p) <==> p == pointer {
      SeedsReachable(spec, [pointer], pointer);
      if path :| IsPath(spec, path, [pointer], p) {
        PathStays(spec, [pointer], {pointer}, path, p);
      }
    }
    NameHasNoSlash(pointer);
    SchemaPointer(NameOf(pointer));
    if NamedBy(names, spec, [pointer]) {
      assert NameOf(pointer) in names;
    }
  }

  lemma WordInside(place: string, word: string)
    requires '/' !in word
    ensures var pointer := SCHEMAS + place + ['/'] + word;
      InSchemas(pointer) && !Flat(pointer) && NameOf(pointer) == word
  {
    var pointer := SCHEMAS + place + ['/'] + word;
    SplitAppend(SCHEMAS + place, word, '/');
    assert pointer[..|SCHEMAS|] == SCHEMAS;
    assert pointer[|SCHEMAS|..][|place|] == '/';
  }

  lemma NothingFromNowhere(spec: Node, names: set<string>)
    ensures NamedBy(names, spec, []) ==> names == {}
    ensures !Dangles(spec, [])
  {
    forall p, path ensures !IsPath(spec, path, [], p) {
    }
  }

  /** So partition takes property b of schema A for a schema b: place is A/properties, word is b. */
  method PartitionMisnames(place: string, word: string) returns (r: Option<(set<string>, set<string>)>)
    requires '/' !in word
    ensures r == Some(({}, {word}))
    ensures var pointer := SCHEMAS + place + ['/'] + word;
      && SeedsOf(Referring(pointer)).Some?
      && !Reachable(Referring(pointer), SeedsOf(Referring(pointer)).value.response, SCHEMAS + word)
  {
    var pointer := SCHEMAS + place + ['/'] + word;
    WordInside(place, word);
    NestedPointerMisnames(pointer, {word});
    r := Partition(Referring(pointer));
    NothingFromNowhere(Referring(pointer), if r.Some? then r.value.0 else {});
    NestedPointerMisnames(pointer, if r.Some? then r.value.1 else {});
  }
}
