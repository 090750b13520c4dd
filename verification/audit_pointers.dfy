/** What the references of a document and the places they point to are, read off the document
    itself. */
module AuditPointers {
  import opened Wrappers
  import opened AuditClosure

  // --------------------------------------------------------------------------------- references

  /** Going down from the node by the numbers of path, the last member met is a reference to p. */
  ghost predicate Refers(node: Node, path: seq<nat>, p: string)
    decreases |path|
  {
    && path != []
    && match node
       case Object(members) =>
         && path[0] < |members|
         && if |path| == 1 then members[path[0]] == Member("$ref", Text(p))
            else Refers(members[path[0]].value, path[1..], p)
       case List(items) => path[0] < |items| && Refers(items[path[0]], path[1..], p)
       case _ => false
  }

  predicate IsRef(m: Member) {
    m.key == "$ref" && m.value.Text?
  }

  lemma {:induction false} MembersRefs(members: seq<Member>, p: string)
    ensures p in RefsOfMembers(members) <==>
            exists i :: 0 <= i < |members| &&
              if IsRef(members[i]) then members[i].value == Text(p) else p in Refs(members[i].value)
  {
    if members != [] {
      var rest := members[1..];
      MembersRefs(rest, p);
      assert forall i :: 0 <= i < |rest| ==> rest[i] == members[i + 1];
      assert forall i :: 0 < i < |members| ==> members[i] == rest[i - 1];
    }
  }

  lemma {:induction false} ItemsRefs(items: seq<Node>, p: string)
    ensures p in RefsOfItems(items) <==> exists i :: 0 <= i < |items| && p in Refs(items[i])
  {
    if items != [] {
      var rest := items[1..];
      ItemsRefs(rest, p);
      assert forall i :: 0 <= i < |rest| ==> rest[i] == items[i + 1];
      assert forall i :: 0 < i < |items| ==> items[i] == rest[i - 1];
    }
  }

  lemma {:induction false} RefHasPath(node: Node, p: string) returns (path: seq<nat>)
    requires p in Refs(node)
    ensures Refers(node, path, p)
    decreases node
  {
    match node
    case Object(members) =>
      MembersRefs(members, p);
      var i :| 0 <= i < |members| &&
        if IsRef(members[i]) then members[i].value == Text(p) else p in Refs(members[i].value);
      if IsRef(members[i]) {
        path := [i];
      } else {
        var rest := RefHasPath(members[i].value, p);
        path := [i] + rest;
        assert path[1..] == rest;
      }
    case List(items) =>
      ItemsRefs(items, p);
      var i :| 0 <= i < |items| && p in Refs(items[i]);
      var rest := RefHasPath(items[i], p);
      path := [i] + rest;
      assert path[1..] == rest;
  }

  lemma {:induction false} PathIsRef(node: Node, path: seq<nat>, p: string)
    requires Refers(node, path, p)
    ensures p in Refs(node)
    decreases |path|
  {
    var i := path[0];
    match node
    case Object(members) =>
      if |path| > 1 {
        PathIsRef(members[i].value, path[1..], p);
      }
      MembersRefs(members, p);
      assert if IsRef(members[i]) then members[i].value == Text(p) else p in Refs(members[i].value);
    case List(items) =>
      PathIsRef(items[i], path[1..], p);
      ItemsRefs(items, p);
  }

  ghost predicate Mentions(node: Node, p: string) {
    exists path :: Refers(node, path, p)
  }

  /** A node's references are what its $ref members say, however deep and whatever is beside them. */
  lemma RefsIff(node: Node, p: string)
    ensures p in Refs(node) <==> Mentions(node, p)
  {
    if p in Refs(node) {
      var path := RefHasPath(node, p);
      assert Mentions(node, p);
    }
    if Mentions(node, p) {
      var path :| Refers(node, path, p);
      PathIsRef(node, path, p);
    }
  }

  // ------------------------------------------------------------------------------------- places

  /** The node has this value under this key. */
  ghost predicate Has(node: Node, key: string, value: Node) {
    node.Object? && exists i :: 0 <= i < |node.members| && node.members[i] == Member(key, value)
                                && forall j :: 0 <= j < i ==> node.members[j].key != key
  }

  /** n is what the document has under these keys, one inside the other. */
  ghost predicate Chain(nodes: seq<Node>, keys: seq<string>) {
    |nodes| == |keys| + 1 && forall i :: 0 <= i < |keys| ==> Has(nodes[i], keys[i], nodes[i + 1])
  }

  ghost predicate Leads(spec: Node, keys: seq<string>, n: Node) {
    exists nodes :: Chain(nodes, keys) && nodes[0] == spec && nodes[|keys|] == n
  }

  lemma {:induction false} GetIsThere(members: seq<Member>, key: string)
    requires Get(members, key).Some?
    ensures Has(Object(members), key, Get(members, key).value)
  {
    if members[0].key == key {
      assert members[0] == Member(key, members[0].value);
    } else {
      var rest, value := members[1..], Get(members, key).value;
      GetIsThere(rest, key);
      var i :| 0 <= i < |rest| && rest[i] == Member(key, value) && forall j :: 0 <= j < i ==> rest[j].key != key;
      assert members[i + 1] == Member(key, value);
      assert forall j :: 0 <= j < i + 1 ==> members[j] == if j == 0 then members[0] else rest[j - 1];
    }
  }

  lemma {:induction false} FirstIsGot(members: seq<Member>, key: string, i: nat)
    requires i < |members| && members[i].key == key && forall j :: 0 <= j < i ==> members[j].key != key
    ensures Get(members, key) == Some(members[i].value)
  {
    if i > 0 {
      FirstIsGot(members[1..], key, i - 1);
    }
  }

  lemma GetIff(members: seq<Member>, key: string, value: Node)
    ensures Get(members, key) == Some(value) <==> Has(Object(members), key, value)
  {
    if Get(members, key) == Some(value) {
      GetIsThere(members, key);
    }
    forall i | 0 <= i < |members| && members[i] == Member(key, value)
               && forall j :: 0 <= j < i ==> members[j].key != key
      ensures Get(members, key) == Some(value)
    {
      FirstIsGot(members, key, i);
    }
  }

  lemma {:induction false} WalkLeads(node: Node, keys: seq<string>) returns (nodes: seq<Node>)
    requires Walk(node, keys).Some?
    ensures Chain(nodes, keys) && nodes[0] == node && nodes[|keys|] == Walk(node, keys).value
    decreases |keys|
  {
    if keys == [] {
      nodes := [node];
    } else {
      var next := Get(node.members, keys[0]).value;
      GetIff(node.members, keys[0], next);
      var rest := WalkLeads(next, keys[1..]);
      nodes := [node] + rest;
      assert forall i :: 0 < i < |keys| ==> Has(rest[i - 1], keys[1..][i - 1], rest[i]);
    }
  }

  lemma {:induction false} ChainIsWalk(nodes: seq<Node>, keys: seq<string>)
    requires Chain(nodes, keys)
    ensures Walk(nodes[0], keys) == Some(nodes[|keys|])
    decreases |keys|
  {
    if keys != [] {
      assert Has(nodes[0], keys[0], nodes[1]);
      GetIff(nodes[0].members, keys[0], nodes[1]);
      ChainIsWalk(nodes[1..], keys[1..]);
    }
  }

  lemma WalkIff(node: Node, keys: seq<string>, n: Node)
    ensures Walk(node, keys) == Some(n) <==> Leads(node, keys, n)
  {
    if Walk(node, keys) == Some(n) {
      var nodes := WalkLeads(node, keys);
      assert Leads(node, keys, n);
    }
    if Leads(node, keys, n) {
      var nodes :| Chain(nodes, keys) && nodes[0] == node && nodes[|keys|] == n;
      ChainIsWalk(nodes, keys);
    }
  }

  function Slashed(keys: seq<string>): string
    requires keys != []
  {
    if |keys| == 1 then keys[0] else Slashed(keys[..|keys| - 1]) + ['/'] + keys[|keys| - 1]
  }

  lemma {:induction false} SplitSlashed(keys: seq<string>)
    requires keys != [] && forall k :: k in keys ==> '/' !in k
    ensures SplitOn(Slashed(keys), '/') == keys
    ensures keys[0] <= Slashed(keys)
  {
    var n := |keys| - 1;
    assert keys[n] in keys;
    if n == 0 {
      SplitWhole(keys[0], '/');
      assert keys == [keys[0]];
    } else {
      SplitSlashed(keys[..n]);
      SplitAppend(Slashed(keys[..n]), keys[n], '/');
      assert keys == keys[..n] + [keys[n]];
    }
  }

  /** A pointer #/a/b/c resolves to what the document has under a, b and c, and to nothing else. */
  lemma ResolvesIff(spec: Node, keys: seq<string>, n: Node)
    requires keys != [] && (forall k :: k in keys ==> '/' !in k) && keys[0] != [] && keys[0][0] != '#'
    ensures Resolve(spec, "#/" + Slashed(keys)) == Some(n) <==> Leads(spec, keys, n)
  {
    SplitSlashed(keys);
    var s := Slashed(keys);
    assert keys[0] in keys && s[0] == keys[0][0] && keys[0][0] in keys[0];
    var pointer := "#/" + s;
    assert pointer[1..] == "/" + s && pointer[1..][1..] == s;
    assert Stripped(s) == s && Stripped(pointer[1..]) == s && Stripped(pointer) == s;
    WalkIff(spec, keys, n);
  }

  // ------------------------------------------------------------------------------ what partition asks

  predicate BadOperation(m: Member) {
    m.key in METHODS && !m.value.Object?
  }

  predicate BadPath(item: Node) {
    !item.Object? || exists m :: m in item.members && BadOperation(m)
  }

  lemma {:induction false} OpsFailIff(ops: seq<Member>, shared: Node)
    ensures SeedsOfOps(ops, shared).None? <==> exists m :: m in ops && BadOperation(m)
  {
    if ops != [] {
      var rest, m := ops[..|ops| - 1], ops[|ops| - 1];
      OpsFailIff(rest, shared);
      assert ops == rest + [m];
      assert SeedsOfOps(ops, shared) == Joined(SeedsOfOps(rest, shared), SeedsOfOp(m, shared));
      assert SeedsOfOp(m, shared).None? <==> BadOperation(m);
      assert forall x :: x in ops <==> x in rest || x == m;
    }
  }

  lemma {:induction false} PathsFailIff(paths: seq<Member>)
    ensures SeedsOfPaths(paths).None? <==> exists m :: m in paths && BadPath(m.value)
  {
    if paths != [] {
      var rest, m := paths[..|paths| - 1], paths[|paths| - 1];
      PathsFailIff(rest);
      if m.value.Object? {
        OpsFailIff(m.value.members, GetOr(m.value.members, "parameters"));
      }
      assert paths == rest + [m];
    }
  }

  /** partition asks of the document's shape that it, its paths, each path and each operation are
      objects; without paths there is nothing to start from. */
  lemma SeedsFailIff(spec: Node)
    ensures SeedsOf(spec).None? <==>
              || !spec.Object?
              || (exists paths :: Has(spec, "paths", paths) &&
                    (!paths.Object? || exists m :: m in paths.members && BadPath(m.value)))
    ensures spec.Object? && (forall n :: !Has(spec, "paths", n)) ==> SeedsOf(spec) == Some(Seeds([], []))
  {
    if spec.Object? {
      forall n ensures Get(spec.members, "paths") == Some(n) <==> Has(spec, "paths", n) {
        GetIff(spec.members, "paths", n);
      }
      var found := Get(spec.members, "paths");
      if found.Some? && found.value.Object? {
        PathsFailIff(found.value.members);
      }
    }
  }
}
