/** A flat hash turned into a tree of nested objects along its slash-separated keys, and looked up again. */
module Hierarchy {
  import opened Options
  import opened Text
  import opened Values

  type Path = seq<string>

  datatype Node = Leaf(v: Value) | Tree(children: map<string, Node>)

  /** What `current[k] || {}` keeps of a value: the falsy ones give way to a new object. */
  predicate Falsy(v: Value) {
    match v
    case Undefined => true
    case Null => true
    case Bool(b) => !b
    case Num(n) => n == 0
    case Str(s) => s == ""
    case _ => false
  }

  /** Assigns at the path below a node. None when a value is in the way, on which no field can be set. */
  function Insert(node: Node, keys: Path, v: Value): Option<Node>
    requires keys != []
    decreases |keys|
  {
    if node.Leaf? then None
    else if |keys| == 1 then Some(Tree(node.children[keys[0] := Leaf(v)]))
    else
      var child := if keys[0] in node.children then node.children[keys[0]] else Tree(map[]);
      var current := if child.Leaf? && Falsy(child.v) then Tree(map[]) else child;
      match Insert(current, keys[1..], v)
      case None => None
      case Some(inner) => Some(Tree(node.children[keys[0] := inner]))
  }

  function Child(node: Node, key: string): Option<Node> {
    if node.Tree? && key in node.children then Some(node.children[key]) else None
  }

  /** The node at a path below a node. */
  function Get(node: Node, keys: Path): Option<Node>
    decreases |keys|
  {
    if |keys| == 0 then Some(node)
    else match Child(node, keys[0])
      case None => None
      case Some(child) => Get(child, keys[1..])
  }

  /** What looking a path up comes to: a value, `undefined`, or an exception. */
  datatype Lookup = Found(node: Node) | Missing | Throws

  /** Reading a field of null throws; any other value on the way has no fields. */
  function Walk(node: Node, keys: Path): Lookup
    decreases |keys|
  {
    if |keys| == 0 then Found(node)
    else if node == Leaf(Null) then Throws
    else match Child(node, keys[0])
      case None => Missing
      case Some(child) => if child == Leaf(Undefined) then Missing else Walk(child, keys[1..])
  }

  /** The walk throws exactly when null lies on the way, before the path's end; it finds exactly what the path leads
      to, if that is not `undefined`. */
  lemma {:induction false} WalkOutcome(node: Node, keys: Path)
    ensures Walk(node, keys).Throws? <==> exists i :: 0 <= i < |keys| && Get(node, keys[..i]) == Some(Leaf(Null))
    ensures forall n :: Walk(node, keys) == Found(n) <==>
      Get(node, keys) == Some(n) && (n == Leaf(Undefined) ==> keys == [])
    decreases |keys|
  {
    if keys != [] {
      assert Get(node, keys[..0]) == Some(node);
      match Child(node, keys[0])
      case None =>
        forall i | 0 < i <= |keys| ensures Get(node, keys[..i]) == None {
        }
      case Some(child) =>
        WalkOutcome(child, keys[1..]);
        forall i | 0 < i <= |keys| ensures Get(node, keys[..i]) == Get(child, keys[1..][..i - 1]) {
          assert keys[..i][1..] == keys[1..][..i - 1];
        }
        assert keys[..|keys|] == keys;
        WalkThrowsBelow(node, child, keys);
    }
  }

  lemma WalkThrowsBelow(node: Node, child: Node, keys: Path)
    requires keys != [] && Child(node, keys[0]) == Some(child)
    requires Walk(child, keys[1..]).Throws? <==>
      exists i :: 0 <= i < |keys[1..]| && Get(child, keys[1..][..i]) == Some(Leaf(Null))
    requires forall i :: 0 < i <= |keys| ==> Get(node, keys[..i]) == Get(child, keys[1..][..i - 1])
    ensures Walk(node, keys).Throws? <==> exists i :: 0 <= i < |keys| && Get(node, keys[..i]) == Some(Leaf(Null))
  {
    if Walk(child, keys[1..]).Throws? {
      var i :| 0 <= i < |keys[1..]| && Get(child, keys[1..][..i]) == Some(Leaf(Null));
      assert Get(node, keys[..i + 1]) == Some(Leaf(Null));
    }
    if j :| 0 <= j < |keys| && Get(node, keys[..j]) == Some(Leaf(Null)) {
      assert j > 0 && Get(child, keys[1..][..j - 1]) == Some(Leaf(Null));
    }
  }

  /* ---------- which tree a hash stands for ---------- */

  predicate Extends(prefix: Path, k: Path) {
    prefix <= k
  }

  ghost predicate SomeKeyExtends(h: map<Path, Value>, prefix: Path) {
    exists k {:trigger Extends(prefix, k)} :: k in h && Extends(prefix, k)
  }

  ghost predicate ChildRepresents(children: map<string, Node>, h: map<Path, Value>, prefix: Path, c: string)
    requires c in children
    decreases children[c], 2
  {
    match children[c]
    case Leaf(v) => prefix + [c] in h && h[prefix + [c]] == v
    case Tree(_) => prefix + [c] !in h && Represents(children[c], h, prefix + [c])
  }

  /** The node at `prefix` has a child for exactly the next parts of the keys that go on from there:
      a leaf with its value where a key ends, an object where keys go on. */
  ghost predicate Represents(node: Node, h: map<Path, Value>, prefix: Path)
    decreases node, 1
  {
    && node.Tree?
    && (forall c {:trigger c in node.children} :: c in node.children <==> SomeKeyExtends(h, prefix + [c]))
    && (forall c {:trigger ChildRepresents(node.children, h, prefix, c)} :: c in node.children ==>
        ChildRepresents(node.children, h, prefix, c))
  }

  /** No key is the beginning of another. */
  ghost predicate PrefixFree(h: map<Path, Value>) {
    && [] !in h
    && forall a, b {:trigger Extends(a, b)} :: a in h && b in h && Extends(a, b) ==> a == b
  }

  /** There is at most one tree for a hash. */
  lemma {:induction false} RepresentedOnce(m: Node, n: Node, h: map<Path, Value>, prefix: Path)
    requires Represents(m, h, prefix) && Represents(n, h, prefix)
    ensures m == n
    decreases m
  {
    forall c ensures c in m.children <==> c in n.children {
      assert SomeKeyExtends(h, prefix + [c]) || !SomeKeyExtends(h, prefix + [c]);
    }
    forall c | c in m.children ensures m.children[c] == n.children[c] {
      assert ChildRepresents(m.children, h, prefix, c) && ChildRepresents(n.children, h, prefix, c);
      if m.children[c].Tree? {
        RepresentedOnce(m.children[c], n.children[c], h, prefix + [c]);
      }
    }
    assert m.children == n.children;
  }

  /** The two hashes agree on the keys that go on from `prefix`. */
  ghost predicate AgreeBelow(h: map<Path, Value>, h': map<Path, Value>, prefix: Path) {
    forall k {:trigger Extends(prefix, k)} :: Extends(prefix, k) ==> (k in h <==> k in h') && (k in h ==> h[k] == h'[k])
  }

  lemma AgreeDeeper(h: map<Path, Value>, h': map<Path, Value>, prefix: Path, c: string)
    requires AgreeBelow(h, h', prefix)
    ensures AgreeBelow(h, h', prefix + [c])
    ensures SomeKeyExtends(h, prefix + [c]) <==> SomeKeyExtends(h', prefix + [c])
  {
    forall k | Extends(prefix + [c], k) ensures (k in h <==> k in h') && (k in h ==> h[k] == h'[k]) {
      assert Extends(prefix, k);
    }
  }

  lemma {:induction false} RepresentsFrame(node: Node, h: map<Path, Value>, h': map<Path, Value>, prefix: Path)
    requires Represents(node, h, prefix) && AgreeBelow(h, h', prefix)
    ensures Represents(node, h', prefix)
    decreases node, 1
  {
    forall c ensures c in node.children <==> SomeKeyExtends(h', prefix + [c]) {
      AgreeDeeper(h, h', prefix, c);
    }
    forall c | c in node.children ensures ChildRepresents(node.children, h', prefix, c) {
      ChildFrame(node, h, h', prefix, c);
    }
  }

  lemma {:induction false} ChildFrame(node: Node, h: map<Path, Value>, h': map<Path, Value>, prefix: Path, c: string)
    requires Represents(node, h, prefix) && AgreeBelow(h, h', prefix) && c in node.children
    ensures ChildRepresents(node.children, h', prefix, c)
    decreases node, 0
  {
    assert ChildRepresents(node.children, h, prefix, c);
    assert Extends(prefix, prefix + [c]);
    if node.children[c].Tree? {
      AgreeDeeper(h, h', prefix, c);
      RepresentsFrame(node.children[c], h, h', prefix + [c]);
    }
  }

  lemma EmptyRepresents(h: map<Path, Value>, prefix: Path)
    requires forall k {:trigger Extends(prefix, k)} :: k in h ==> !Extends(prefix, k)
    ensures Represents(Tree(map[]), h, prefix)
  {
    forall c ensures !SomeKeyExtends(h, prefix + [c]) {
      forall k | k in h ensures !Extends(prefix + [c], k) {
        assert !Extends(prefix, k);
      }
    }
  }

  /* ---------- building ---------- */

  lemma OthersAgree(h: map<Path, Value>, key: Path, v: Value, prefix: Path, c: string, d: string)
    requires Extends(prefix + [c], key) && c != d
    ensures AgreeBelow(h, h[key := v], prefix + [d])
  {
    assert key[|prefix|] == (prefix + [c])[|prefix|] == c;
    forall k | Extends(prefix + [d], k) ensures k != key {
      assert k[|prefix|] == (prefix + [d])[|prefix|] == d;
    }
  }

  /** A sibling's subtree is not touched by a key that goes elsewhere. */
  lemma SiblingStays(node: Node, h: map<Path, Value>, prefix: Path, key: Path, v: Value, c: string, d: string)
    requires Represents(node, h, prefix) && Extends(prefix + [c], key) && c != d && d in node.children
    ensures ChildRepresents(node.children, h[key := v], prefix, d)
  {
    OthersAgree(h, key, v, prefix, c, d);
    assert ChildRepresents(node.children, h, prefix, d);
    assert Extends(prefix + [d], prefix + [d]);
    if node.children[d].Tree? {
      RepresentsFrame(node.children[d], h, h[key := v], prefix + [d]);
    }
  }

  /** Which parts have a child once the key is in. */
  lemma PartsAfter(h: map<Path, Value>, prefix: Path, key: Path, v: Value, c: string, d: string)
    requires Extends(prefix + [c], key)
    ensures SomeKeyExtends(h[key := v], prefix + [d]) <==> d == c || SomeKeyExtends(h, prefix + [d])
  {
    var h' := h[key := v];
    if d == c {
      assert key in h' && Extends(prefix + [d], key);
    } else {
      OthersAgree(h, key, v, prefix, c, d);
      if SomeKeyExtends(h, prefix + [d]) {
        var k :| k in h && Extends(prefix + [d], k);
        assert k in h';
      }
      if SomeKeyExtends(h', prefix + [d]) {
        var k :| k in h' && Extends(prefix + [d], k);
        assert k in h;
      }
    }
  }

  lemma NodeRepresents(node: Node, h: map<Path, Value>, prefix: Path, key: Path, v: Value, c: string, child: Node)
    requires Represents(node, h, prefix) && Extends(prefix + [c], key)
    requires ChildRepresents(node.children[c := child], h[key := v], prefix, c)
    ensures Represents(Tree(node.children[c := child]), h[key := v], prefix)
  {
    var children, h' := node.children[c := child], h[key := v];
    forall d ensures d in children <==> SomeKeyExtends(h', prefix + [d]) {
      PartsAfter(h, prefix, key, v, c, d);
    }
    forall d | d in children ensures ChildRepresents(children, h', prefix, d) {
      if d != c {
        SiblingStays(node, h, prefix, key, v, c, d);
        SameChild(node.children, children, h', prefix, d);
      }
    }
  }

  lemma SameChild(children: map<string, Node>, children': map<string, Node>, h: map<Path, Value>, prefix: Path,
      d: string)
    requires d in children && d in children' && children[d] == children'[d] && ChildRepresents(children, h, prefix, d)
    ensures ChildRepresents(children', h, prefix, d)
  {
  }

  /** Adding a key to the tree of a hash gives the tree of the hash with the key; nothing is ever in the way. */
  lemma {:induction false} InsertRepresents(node: Node, h: map<Path, Value>, prefix: Path, rest: Path, v: Value)
    requires Represents(node, h, prefix) && rest != [] && PrefixFree(h[prefix + rest := v])
    ensures Insert(node, rest, v).Some? && Represents(Insert(node, rest, v).value, h[prefix + rest := v], prefix)
    decreases |rest|
  {
    var c, key := rest[0], prefix + rest;
    var h' := h[key := v];
    assert Extends(prefix + [c], key);
    if |rest| == 1 {
      assert key == prefix + [c];
      NodeRepresents(node, h, prefix, key, v, c, Leaf(v));
    } else {
      assert key == prefix + [c] + rest[1..];
      assert prefix + [c] !in h by {
        assert prefix + [c] in h' && key in h' ==> prefix + [c] == key;
      }
      if c in node.children {
        assert ChildRepresents(node.children, h, prefix, c);
        InsertRepresents(node.children[c], h, prefix + [c], rest[1..], v);
      } else {
        assert !SomeKeyExtends(h, prefix + [c]);
        EmptyRepresents(h, prefix + [c]);
        InsertRepresents(Tree(map[]), h, prefix + [c], rest[1..], v);
      }
      var inner := Insert(if c in node.children then node.children[c] else Tree(map[]), rest[1..], v).value;
      assert prefix + [c] !in h';
      NodeRepresents(node, h, prefix, key, v, c, inner);
    }
  }

  /** In the tree of a hash, each key leads to its value. */
  lemma {:induction false} GetRepresented(node: Node, h: map<Path, Value>, prefix: Path, rest: Path)
    requires Represents(node, h, prefix) && PrefixFree(h) && rest != [] && prefix + rest in h
    ensures Get(node, rest) == Some(Leaf(h[prefix + rest]))
    ensures !h[prefix + rest].Undefined? ==> Walk(node, rest) == Found(Leaf(h[prefix + rest]))
    decreases |rest|
  {
    var c, key := rest[0], prefix + rest;
    assert Extends(prefix + [c], key);
    assert SomeKeyExtends(h, prefix + [c]);
    assert ChildRepresents(node.children, h, prefix, c);
    if |rest| == 1 {
      assert key == prefix + [c];
    } else {
      assert key == prefix + [c] + rest[1..];
      assert prefix + [c] in h ==> prefix + [c] == key;
      GetRepresented(node.children[c], h, prefix + [c], rest[1..]);
    }
  }

  /** A path that no key goes on from or begins with leads nowhere. */
  lemma {:induction false} GetUnrepresented(node: Node, h: map<Path, Value>, prefix: Path, rest: Path)
    requires Represents(node, h, prefix) && rest != []
    requires forall k {:trigger k in h} :: k in h ==> !Extends(prefix + rest, k) && !Extends(k, prefix + rest)
    ensures Get(node, rest) == None && Walk(node, rest) == Missing
    decreases |rest|
  {
    var c := rest[0];
    assert Extends(prefix + [c], prefix + rest);
    if |rest| == 1 {
      assert prefix + rest == prefix + [c];
      assert !SomeKeyExtends(h, prefix + [c]);
    } else if c in node.children {
      assert ChildRepresents(node.children, h, prefix, c);
      assert prefix + rest == prefix + [c] + rest[1..];
      GetUnrepresented(node.children[c], h, prefix + [c], rest[1..]);
    }
  }

  ghost predicate BelowNull(h: map<Path, Value>, path: Path) {
    exists k {:trigger Extends(k, path)} :: k in h && h[k] == Null && Extends(k, path) && k != path
  }

  lemma BeginningOfNext(k: Path, prefix: Path, c: string)
    ensures Extends(k, prefix + [c]) ==> Extends(k, prefix) || k == prefix + [c]
  {
    if |k| <= |prefix| {
      assert (prefix + [c])[..|k|] == prefix[..|k|];
    }
  }

  /** In a represented hash, exactly the paths that go on from a key with the value null have the walk throw. */
  lemma {:induction false} ThrowsBelowNull(node: Node, h: map<Path, Value>, prefix: Path, rest: Path)
    requires Represents(node, h, prefix) && PrefixFree(h) && rest != []
    requires forall k {:trigger k in h} :: k in h ==> !Extends(k, prefix)
    ensures Walk(node, rest).Throws? <==> BelowNull(h, prefix + rest)
    decreases |rest|
  {
    var c, path := rest[0], prefix + rest;
    var next := prefix + [c];
    assert Extends(next, path);
    forall k | k in h && Extends(k, path) ensures Extends(next, k) {
      assert !Extends(k, prefix);
      assert path[..|k|] == k && path[..|next|] == next;
    }
    if c !in node.children {
      assert !SomeKeyExtends(h, next);
    } else {
      assert ChildRepresents(node.children, h, prefix, c);
      if node.children[c].Leaf? {
        assert forall k :: k in h && Extends(next, k) ==> k == next;
        assert next == path <==> |rest| == 1;
      } else if |rest| == 1 {
        assert next == path;
      } else {
        assert path == next + rest[1..];
        forall k | k in h ensures !Extends(k, next) {
          BeginningOfNext(k, prefix, c);
        }
        ThrowsBelowNull(node.children[c], h, next, rest[1..]);
      }
    }
  }

  /* ---------- the source's two functions ---------- */

  /** The hash by key parts; fields without a value are left out. */
  ghost function ByParts(obj: map<string, Value>): map<Path, Value> {
    SplitsDiffer(obj.Keys);
    map key | key in obj && !obj[key].Undefined? :: Split(key, "/") := obj[key]
  }

  lemma SplitsDiffer(keys: set<string>)
    ensures forall a, b :: a in keys && b in keys && Split(a, "/") == Split(b, "/") ==> a == b
  {
    forall a, b | a in keys && b in keys && Split(a, "/") == Split(b, "/") ensures a == b {
      SplitInjective(a, b, "/");
    }
  }

  /** The part of the hash already visited. */
  ghost function Seen(obj: map<string, Value>, todo: set<string>): map<string, Value> {
    map key | key in obj && key !in todo :: obj[key]
  }

  predicate HasParts(obj: map<string, Value>, a: string, k: Path) {
    a in obj && !obj[a].Undefined? && Split(a, "/") == k
  }

  lemma PartsHave(obj: map<string, Value>, a: string, k: Path)
    requires HasParts(obj, a, k)
    ensures k in ByParts(obj) && ByParts(obj)[k] == obj[a]
  {
    SplitsDiffer(obj.Keys);
  }

  lemma PartsCome(obj: map<string, Value>, k: Path) returns (a: string)
    requires k in ByParts(obj)
    ensures HasParts(obj, a, k)
  {
    a :| a in obj && !obj[a].Undefined? && Split(a, "/") == k;
  }

  lemma SeenNextAt(obj: map<string, Value>, todo: set<string>, key: string, k: Path)
    requires key in obj && key in todo
    ensures var before, after := ByParts(Seen(obj, todo)), ByParts(Seen(obj, todo - {key}));
      if !obj[key].Undefined? && k == Split(key, "/") then k in after && after[k] == obj[key]
      else (k in after <==> k in before) && (k in after ==> after[k] == before[k])
  {
    hide Split, ByParts;
    var before, after := Seen(obj, todo), Seen(obj, todo - {key});
    if HasParts(after, key, k) {
      PartsHave(after, key, k);
    } else {
      if k in ByParts(before) {
        var a := PartsCome(before, k);
        PartsHave(before, a, k);
        PartsHave(after, a, k);
      }
      if k in ByParts(after) {
        var a := PartsCome(after, k);
        PartsHave(after, a, k);
        PartsHave(before, a, k);
      }
    }
  }

  lemma SeenNext(obj: map<string, Value>, todo: set<string>, key: string)
    requires key in obj && key in todo
    ensures ByParts(Seen(obj, todo - {key}))
         == if obj[key].Undefined? then ByParts(Seen(obj, todo))
             else ByParts(Seen(obj, todo))[Split(key, "/") := obj[key]]
  {
    hide Split, ByParts, Seen;
    var before, after := ByParts(Seen(obj, todo)), ByParts(Seen(obj, todo - {key}));
    var expected := if obj[key].Undefined? then before else before[Split(key, "/") := obj[key]];
    forall k ensures (k in after <==> k in expected) && (k in after ==> after[k] == expected[k]) {
      SeenNextAt(obj, todo, key, k);
    }
  }

  lemma SeenIsPrefixFree(obj: map<string, Value>, todo: set<string>)
    requires PrefixFree(ByParts(obj))
    ensures PrefixFree(ByParts(Seen(obj, todo)))
  {
    var part, h := ByParts(Seen(obj, todo)), ByParts(obj);
    forall k | k in part ensures k in h {
      var a :| a in Seen(obj, todo) && !obj[a].Undefined? && Split(a, "/") == k;
      assert a in obj;
    }
  }

  /** Builds the tree key by key, in any order. Whenever no key is the beginning of another, it is the tree of
      the hash. */
  method RestoreHierarchy(obj: map<string, Value>) returns (result: Option<Node>)
    ensures PrefixFree(ByParts(obj)) ==> result.Some? && Represents(result.value, ByParts(obj), [])
  {
    hide PrefixFree, Represents, ByParts, Insert;
    var tree := Tree(map[]);
    var todo := obj.Keys;
    NothingSeen(obj);
    while todo != {}
      invariant todo <= obj.Keys
      invariant PrefixFree(ByParts(obj)) ==> Represents(tree, ByParts(Seen(obj, todo)), [])
      decreases |todo|
    {
      var key :| key in todo;
      SeenNext(obj, todo, key);
      ghost var before := ByParts(Seen(obj, todo));
      todo := todo - {key};
      if !obj[key].Undefined? {
        var keys := Split(key, "/");
        var next := Insert(tree, keys, obj[key]);
        if PrefixFree(ByParts(obj)) {
          SeenIsPrefixFree(obj, todo);
          assert [] + keys == keys;
          InsertRepresents(tree, before, [], keys, obj[key]);
        }
        if next.None? {
          return None;
        }
        tree := next.value;
      }
    }
    assert Seen(obj, todo) == obj;
    result := Some(tree);
  }

  lemma NothingSeen(obj: map<string, Value>)
    ensures Represents(Tree(map[]), ByParts(Seen(obj, obj.Keys)), [])
  {
    assert Seen(obj, obj.Keys) == map[];
    EmptyRepresents(ByParts(Seen(obj, obj.Keys)), []);
  }

  /** Walks down the tree part by part. Null on the way throws, any other value there has no fields. */
  method GetValueByPath(obj: Node, path: string) returns (value: Lookup)
    ensures value == Walk(obj, Split(path, "/"))
    ensures var parts := Split(path, "/");
      && (value.Throws? <==> exists i :: 0 <= i < |parts| && Get(obj, parts[..i]) == Some(Leaf(Null)))
      && forall n :: value == Found(n) <==> Get(obj, parts) == Some(n) && n != Leaf(Undefined)
  {
    var pathParts := Split(path, "/");
    WalkOutcome(obj, pathParts);
    var currentValue := obj;
    var i := 0;
    assert pathParts[0..] == pathParts;
    while i < |pathParts|
      invariant 0 <= i <= |pathParts|
      invariant Walk(obj, pathParts) == Walk(currentValue, pathParts[i..])
    {
      assert pathParts[i..][1..] == pathParts[i + 1..];
      if currentValue == Leaf(Null) {
        return Throws;
      }
      var next := Child(currentValue, pathParts[i]);
      if next.Some? && next.value != Leaf(Undefined) {
        currentValue := next.value;
      } else {
        return Missing;
      }
      i := i + 1;
    }
    value := Found(currentValue);
  }

  /** Looking a key up in the rebuilt tree gives the flat hash's value, whatever order built the tree; and two
      orders build the same tree. */
  lemma LookupGivesFlatValue(obj: map<string, Value>, tree: Node, key: string)
    requires PrefixFree(ByParts(obj)) && Represents(tree, ByParts(obj), []) && key in obj && !obj[key].Undefined?
    ensures Walk(tree, Split(key, "/")) == Found(Leaf(obj[key]))
  {
    assert [] + Split(key, "/") == Split(key, "/");
    assert Split(key, "/") in ByParts(obj);
    SplitsDiffer(obj.Keys);
    GetRepresented(tree, ByParts(obj), [], Split(key, "/"));
  }

  /** Looking a path up in the rebuilt tree throws if and only if the flat hash has null at a key that is a proper
      beginning, part by part, of the path. */
  lemma LookupThrowsExactly(obj: map<string, Value>, tree: Node, path: string)
    requires PrefixFree(ByParts(obj)) && Represents(tree, ByParts(obj), [])
    ensures Walk(tree, Split(path, "/")).Throws? <==>
      exists key :: key in obj && obj[key] == Null && Split(key, "/") < Split(path, "/")
  {
    hide Represents, Walk, Split;
    var h, parts := ByParts(obj), Split(path, "/");
    assert [] + parts == parts;
    SplitsDiffer(obj.Keys);
    ThrowsBelowNull(tree, h, [], parts);
    if BelowNull(h, parts) {
      var k :| k in h && h[k] == Null && Extends(k, parts) && k != parts;
      var key :| key in obj && !obj[key].Undefined? && Split(key, "/") == k;
      assert obj[key] == Null && Split(key, "/") < parts;
    }
    if key :| key in obj && obj[key] == Null && Split(key, "/") < parts {
      assert Split(key, "/") in h && h[Split(key, "/")] == Null && Extends(Split(key, "/"), parts);
    }
  }

  lemma OrderDoesNotMatter(obj: map<string, Value>, tree: Node, tree': Node)
    requires Represents(tree, ByParts(obj), []) && Represents(tree', ByParts(obj), [])
    ensures tree == tree'
  {
    RepresentedOnce(tree, tree', ByParts(obj), []);
  }

  /** When one key is the beginning of another, the order decides: one of the two orders fails or loses the
      shorter key. */
  lemma OverlappingKeysDependOnOrder(v: Value, w: Value)
    requires v.Str? && v.s != ""
    ensures Insert(Tree(map["a" := Leaf(v)]), ["a", "b"], w) == None
    ensures Insert(Tree(map["a" := Tree(map["b" := Leaf(w)])]), ["a"], v) == Some(Tree(map["a" := Leaf(v)]))
  {
    var children := map["a" := Tree(map["b" := Leaf(w)])];
    assert children["a" := Leaf(v)] == map["a" := Leaf(v)];
  }

  /** A key that goes on below a plain value: the value gives way to an object if it is one that JavaScript takes for
      false, and any other stops the loop. */
  lemma FalsyGivesWay(v: Value, w: Value)
    requires !v.Obj? && !v.NotInteger?
    ensures Insert(Tree(map["a" := Leaf(v)]), ["a", "b"], w) ==
      if v == Null || v == Bool(false) || v == Num(0) || v == Str("") || v == Undefined
      then Some(Tree(map["a" := Tree(map["b" := Leaf(w)])])) else None
  {
    var children := map["a" := Leaf(v)];
    assert children["a" := Tree(map["b" := Leaf(w)])] == map["a" := Tree(map["b" := Leaf(w)])];
    var none: map<string, Node> := map[];
    assert none["b" := Leaf(w)] == map["b" := Leaf(w)];
    assert Insert(Tree(none), ["a", "b"][1..], w) == Some(Tree(map["b" := Leaf(w)]));
  }
}
