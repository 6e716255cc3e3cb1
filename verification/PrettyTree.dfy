/**
 The tree of a JSON value that the inspector shows. Every node has a key, the path to it joined with dots; the views
 remember which nodes are open by key, so keys must tell nodes apart.
 */
module PrettyTree {
  import opened Wrappers

  /** A JSON value, or undefined. Numbers come as the text they are shown as. */
  datatype Json =
    | Undefined | Null | Bool(b: bool) | Number(text: string) | Str(s: string)
    | Arr(items: seq<Json>)
    | Obj(fields: seq<Field>)

  datatype Field = Field(name: string, value: Json)

  datatype Node = Leaf(key: string, caption: string, inlineValue: Option<Json>, multiline: Option<string>)
                | Branch(key: string, caption: string, children: seq<Node>)

  const ROOT := "pretty-root"

  // ---------------------------------------------------------------- indices as text

  const DIGITS := "0123456789"

  function Decimal(n: nat): (s: string)
    ensures |s| >= 1 && forall c :: c in s ==> c in DIGITS
    ensures |s| == 1 <==> n < 10
  {
    if n < 10 then [DIGITS[n]] else Decimal(n / 10) + [DIGITS[n % 10]]
  }

  lemma {:induction false} DecimalIsInjective(a: nat, b: nat)
    requires Decimal(a) == Decimal(b)
    ensures a == b
  {
    var s, t := Decimal(a), Decimal(b);
    assert s[|s| - 1] == DIGITS[a % 10] && t[|t| - 1] == DIGITS[b % 10];
    assert a % 10 == b % 10;
    if a >= 10 {
      assert s[..|s| - 1] == Decimal(a / 10) && t[..|t| - 1] == Decimal(b / 10);
      DecimalIsInjective(a / 10, b / 10);
    }
  }

  function DigitValue(c: char): nat {
    if '0' <= c <= '9' then c as int - '0' as int else 0
  }

  /** Reading decimal text. */
  function Number10(s: string): nat {
    if s == "" then 0 else Number10(s[..|s| - 1]) * 10 + DigitValue(s[|s| - 1])
  }

  lemma {:induction false} DecimalReadsBack(n: nat)
    ensures Number10(Decimal(n)) == n
  {
    var s := Decimal(n);
    assert DigitValue(DIGITS[n % 10]) == n % 10;
    assert s[|s| - 1] == DIGITS[n % 10];
    if n < 10 {
      assert s[..0] == "" && Number10(s[..|s| - 1]) == 0;
    } else {
      DecimalReadsBack(n / 10);
      assert s[..|s| - 1] == Decimal(n / 10);
    }
  }

  // ---------------------------------------------------------------- the children of a value

  function ChildCount(v: Json): nat {
    match v
    case Arr(items) => |items|
    case Obj(fields) => |fields|
    case _ => 0
  }

  function Child(v: Json, i: nat): (c: Json)
    requires i < ChildCount(v)
    ensures c < v
  {
    match v
    case Arr(items) => items[i]
    case Obj(fields) => fields[i].value
  }

  /** The part of the key that a child adds, and its caption. */
  function ChildName(v: Json, i: nat): string
    requires i < ChildCount(v)
  {
    match v
    case Arr(_) => Decimal(i)
    case Obj(fields) => fields[i].name
  }

  function ChildLabel(v: Json, i: nat): string
    requires i < ChildCount(v)
  {
    if v.Arr? then "[" + Decimal(i) + "]" else ChildName(v, i)
  }

  function ChildKey(key: string, v: Json, i: nat): string
    requires i < ChildCount(v)
  {
    key + "." + ChildName(v, i)
  }

  // ---------------------------------------------------------------- building the tree

  /** An empty collection shows as "[]" or "{}", a string with line breaks as a block, anything else in line. */
  function CreateLeaf(caption: string, v: Json, key: string): Node {
    match v
    case Arr(_) => Leaf(key, caption, Some(Str("[]")), None)
    case Obj(_) => Leaf(key, caption, Some(Str("{}")), None)
    case Str(s) => if '\n' in s then Leaf(key, caption, None, Some(s)) else Leaf(key, caption, Some(v), None)
    case _ => Leaf(key, caption, Some(v), None)
  }

  function CreateNode(caption: string, v: Json, key: string): Node
    decreases v, ChildCount(v) + 1
  {
    if ChildCount(v) == 0 then CreateLeaf(caption, v, key) else Branch(key, caption, CreateChildren(v, 0, key))
  }

  function CreateChildren(v: Json, i: nat, key: string): seq<Node>
    requires i <= ChildCount(v)
    decreases v, ChildCount(v) - i
  {
    if i == ChildCount(v) then []
    else [CreateNode(ChildLabel(v, i), Child(v, i), ChildKey(key, v, i))] + CreateChildren(v, i + 1, key)
  }

  function BuildTreeData(v: Json): seq<Node> {
    if v.Undefined? then []
    else if ChildCount(v) > 0 then CreateChildren(v, 0, ROOT)
    else if v.Arr? || v.Obj? then [CreateLeaf("value", v, ROOT)]
    else [CreateLeaf("value", v, ROOT + ".value")]
  }

  // ---------------------------------------------------------------- keys

  function Children(n: Node): seq<Node> {
    if n.Branch? then n.children else []
  }

  /** All nodes in pre-order, each with whether it has children. */
  function PreOrder(nodes: seq<Node>): seq<(string, bool)> {
    if nodes == [] then []
    else
      [(nodes[0].key, |Children(nodes[0])| > 0)]
      + (if nodes[0].Branch? then PreOrder(nodes[0].children) else [])
      + PreOrder(nodes[1..])
  }

  predicate Distinct(keys: seq<(string, bool)>) {
    forall i, j :: 0 <= i < j < |keys| ==> keys[i].0 != keys[j].0
  }

  lemma PreOrderOne(n: Node)
    ensures PreOrder([n]) == [(n.key, |Children(n)| > 0)] + PreOrder(Children(n))
  {
    assert [n][1..] == [];
  }

  lemma PreOrderFirst(nodes: seq<Node>)
    requires nodes != []
    ensures PreOrder(nodes) == PreOrder([nodes[0]]) + PreOrder(nodes[1..])
  {
    PreOrderOne(nodes[0]);
  }

  function KeySet(keys: seq<(string, bool)>): set<string> {
    set k | k in keys :: k.0
  }

  lemma KeySetAppend(a: seq<(string, bool)>, b: seq<(string, bool)>)
    ensures KeySet(a + b) == KeySet(a) + KeySet(b)
  {
    assert forall k :: k in a + b <==> k in a || k in b;
  }

  lemma DistinctAppend(a: seq<(string, bool)>, b: seq<(string, bool)>)
    ensures Distinct(a + b) <==> Distinct(a) && Distinct(b) && KeySet(a) !! KeySet(b)
  {
    var all := a + b;
    assert forall i :: 0 <= i < |a| ==> all[i] == a[i];
    assert forall j :: 0 <= j < |b| ==> all[|a| + j] == b[j];
    if Distinct(all) {
      forall i, j | 0 <= i < |a| && 0 <= j < |b| ensures a[i].0 != b[j].0 {
        assert all[i].0 != all[|a| + j].0;
      }
    } else if KeySet(a) !! KeySet(b) {
      forall i, j | 0 <= i < |a| && 0 <= j < |b| ensures a[i].0 != b[j].0 {
        assert a[i] in a && b[j] in b && a[i].0 in KeySet(a) && b[j].0 in KeySet(b);
      }
    }
  }

  // ---------------------------------------------------------------- what the names of a value spell

  function Prefixed(name: string, texts: set<string>): set<string> {
    set r | r in texts :: name + "." + r
  }

  /** The texts that child `i` and the values below it spell, joined with dots. */
  function SpelledAt(v: Json, i: nat): set<string>
    requires i < ChildCount(v)
    decreases v, ChildCount(v) - i, 0
  {
    {ChildName(v, i)} + Prefixed(ChildName(v, i), SpelledFrom(Child(v, i), 0))
  }

  function SpelledFrom(v: Json, i: nat): set<string>
    requires i <= ChildCount(v)
    decreases v, ChildCount(v) - i, 1
  {
    if i == ChildCount(v) then {} else SpelledAt(v, i) + SpelledFrom(v, i + 1)
  }

  /** In no object or array do two entries, from position `i` on, spell the same text. */
  predicate Unambiguous(v: Json, i: nat)
    requires i <= ChildCount(v)
    decreases v, ChildCount(v) - i
  {
    i == ChildCount(v) ||
    (SpelledAt(v, i) !! SpelledFrom(v, i + 1) && Unambiguous(Child(v, i), 0) && Unambiguous(v, i + 1))
  }

  lemma PrefixedApart(key: string, a: set<string>, b: set<string>)
    ensures Prefixed(key, a) !! Prefixed(key, b) <==> a !! b
  {
    if r :| r in a && r in b {
      assert key + "." + r in Prefixed(key, a) && key + "." + r in Prefixed(key, b);
    }
    forall x | x in Prefixed(key, a) && x in Prefixed(key, b) ensures x[|key| + 1..] in a && x[|key| + 1..] in b {
      var r :| r in a && x == key + "." + r;
      var t :| t in b && x == key + "." + t;
      assert x[|key| + 1..] == r && x[|key| + 1..] == t;
    }
  }

  lemma PrefixedTwice(key: string, name: string, texts: set<string>)
    ensures {key + "." + name} + Prefixed(key + "." + name, texts) == Prefixed(key, {name} + Prefixed(name, texts))
  {
    forall r ensures key + "." + name + "." + r == key + "." + (name + "." + r) {
    }
    forall x | x in Prefixed(key + "." + name, texts) ensures x in Prefixed(key, {name} + Prefixed(name, texts)) {
      var r :| r in texts && x == key + "." + name + "." + r;
      assert name + "." + r in Prefixed(name, texts);
      assert x == key + "." + (name + "." + r);
    }
    forall x | x in Prefixed(key, {name} + Prefixed(name, texts))
      ensures x in {key + "." + name} + Prefixed(key + "." + name, texts)
    {
      var y :| y in {name} + Prefixed(name, texts) && x == key + "." + y;
      if y != name {
        var r :| r in texts && y == name + "." + r;
        assert x == key + "." + name + "." + r;
      }
    }
  }

  lemma PrefixedUnion(key: string, a: set<string>, b: set<string>)
    ensures Prefixed(key, a + b) == Prefixed(key, a) + Prefixed(key, b)
  {
  }

  /** The keys of a node and of those below it are its own, and with its key in front what its value spells. */
  lemma {:induction false} NodeKeys(caption: string, v: Json, key: string)
    ensures KeySet(PreOrder([CreateNode(caption, v, key)])) == {key} + Prefixed(key, SpelledFrom(v, 0))
    decreases v, ChildCount(v) + 1
  {
    var n := CreateNode(caption, v, key);
    PreOrderOne(n);
    KeySetAppend([(n.key, |Children(n)| > 0)], PreOrder(Children(n)));
    assert KeySet([(n.key, |Children(n)| > 0)]) == {key};
    if ChildCount(v) > 0 {
      ChildrenKeys(v, 0, key);
    }
  }

  lemma KeysJoin(
    key: string, name: string, first: seq<(string, bool)>, below: set<string>, rest: seq<(string, bool)>,
    beside: set<string>)
    requires KeySet(first) == {key + "." + name} + Prefixed(key + "." + name, below)
    requires KeySet(rest) == Prefixed(key, beside)
    ensures KeySet(first + rest) == Prefixed(key, {name} + Prefixed(name, below) + beside)
  {
    KeySetAppend(first, rest);
    PrefixedTwice(key, name, below);
    PrefixedUnion(key, {name} + Prefixed(name, below), beside);
  }

  lemma {:induction false} ChildrenKeys(v: Json, i: nat, key: string)
    requires i <= ChildCount(v)
    ensures KeySet(PreOrder(CreateChildren(v, i, key))) == Prefixed(key, SpelledFrom(v, i))
    decreases v, ChildCount(v) - i
  {
    if i < ChildCount(v) {
      FirstChild(v, i, key);
      var n := CreateNode(ChildLabel(v, i), Child(v, i), ChildKey(key, v, i));
      NodeKeys(ChildLabel(v, i), Child(v, i), ChildKey(key, v, i));
      ChildrenKeys(v, i + 1, key);
      KeysJoin(key, ChildName(v, i), PreOrder([n]), SpelledFrom(Child(v, i), 0),
               PreOrder(CreateChildren(v, i + 1, key)), SpelledFrom(v, i + 1));
    }
  }

  lemma FirstChild(v: Json, i: nat, key: string)
    requires i < ChildCount(v)
    ensures PreOrder(CreateChildren(v, i, key)) ==
      PreOrder([CreateNode(ChildLabel(v, i), Child(v, i), ChildKey(key, v, i))])
      + PreOrder(CreateChildren(v, i + 1, key))
  {
    var nodes := CreateChildren(v, i, key);
    PreOrderFirst(nodes);
    assert nodes[1..] == CreateChildren(v, i + 1, key);
  }

  lemma FirstKeysApart(v: Json, i: nat, key: string)
    requires i < ChildCount(v)
    ensures KeySet(PreOrder([CreateNode(ChildLabel(v, i), Child(v, i), ChildKey(key, v, i))]))
              !! KeySet(PreOrder(CreateChildren(v, i + 1, key)))
            <==> SpelledAt(v, i) !! SpelledFrom(v, i + 1)
  {
    NodeKeys(ChildLabel(v, i), Child(v, i), ChildKey(key, v, i));
    ChildrenKeys(v, i + 1, key);
    PrefixedTwice(key, ChildName(v, i), SpelledFrom(Child(v, i), 0));
    PrefixedApart(key, SpelledAt(v, i), SpelledFrom(v, i + 1));
  }

  lemma FirstDistinct(v: Json, i: nat, key: string)
    requires i < ChildCount(v)
    ensures Distinct(PreOrder(CreateChildren(v, i, key))) <==>
      && Distinct(PreOrder([CreateNode(ChildLabel(v, i), Child(v, i), ChildKey(key, v, i))]))
      && Distinct(PreOrder(CreateChildren(v, i + 1, key)))
      && SpelledAt(v, i) !! SpelledFrom(v, i + 1)
  {
    FirstChild(v, i, key);
    FirstKeysApart(v, i, key);
    DistinctAppend(PreOrder([CreateNode(ChildLabel(v, i), Child(v, i), ChildKey(key, v, i))]),
                   PreOrder(CreateChildren(v, i + 1, key)));
  }

  lemma {:induction false} NodeKeysApart(caption: string, v: Json, key: string)
    ensures Distinct(PreOrder([CreateNode(caption, v, key)])) <==> Unambiguous(v, 0)
    decreases v, ChildCount(v) + 1
  {
    var n := CreateNode(caption, v, key);
    PreOrderOne(n);
    DistinctAppend([(n.key, |Children(n)| > 0)], PreOrder(Children(n)));
    if ChildCount(v) > 0 {
      ChildrenKeysApart(v, 0, key);
      ChildrenKeys(v, 0, key);
      OwnKeyIsApart(key, |Children(n)| > 0, SpelledFrom(v, 0));
    }
  }

  /** The keys below a node are longer than its own. */
  lemma OwnKeyIsApart(key: string, branch: bool, texts: set<string>)
    ensures KeySet([(key, branch)]) !! Prefixed(key, texts) && Distinct([(key, branch)])
  {
    assert KeySet([(key, branch)]) == {key};
    assert forall x :: x in Prefixed(key, texts) ==> |x| > |key|;
  }

  lemma {:induction false} ChildrenKeysApart(v: Json, i: nat, key: string)
    requires i <= ChildCount(v)
    ensures Distinct(PreOrder(CreateChildren(v, i, key))) <==> Unambiguous(v, i)
    decreases v, ChildCount(v) - i
  {
    if i == ChildCount(v) {
      NoKeys(v, key);
    } else {
      NodeKeysApart(ChildLabel(v, i), Child(v, i), ChildKey(key, v, i));
      ChildrenKeysApart(v, i + 1, key);
      FirstDistinct(v, i, key);
      UnambiguousStep(v, i);
    }
  }

  lemma NoKeys(v: Json, key: string)
    ensures CreateChildren(v, ChildCount(v), key) == [] && Distinct(PreOrder([])) && Unambiguous(v, ChildCount(v))
  {
  }

  lemma UnambiguousStep(v: Json, i: nat)
    requires i < ChildCount(v)
    ensures Unambiguous(v, i) <==>
      SpelledAt(v, i) !! SpelledFrom(v, i + 1) && Unambiguous(Child(v, i), 0) && Unambiguous(v, i + 1)
  {
  }

  /** All nodes of the tree have different keys exactly when no two entries of one value spell the same text. */
  lemma KeysIdentifyNodesExactly(v: Json)
    ensures Distinct(PreOrder(BuildTreeData(v))) <==> Unambiguous(v, 0)
  {
    if ChildCount(v) > 0 {
      ChildrenKeysApart(v, 0, ROOT);
    } else if !v.Undefined? {
      PreOrderOne(BuildTreeData(v)[0]);
    }
  }

  // ---------------------------------------------------------------- the tree shows the value

  /** The node shows the value: non-empty collections entry by entry and in order, under their indices in brackets or
      their names, and anything else as a leaf, in line or, if it has line breaks, as a block. */
  predicate Shows(n: Node, v: Json)
    decreases v
  {
    match v
    case Arr(items) =>
      if items == [] then n.Leaf? && n.inlineValue == Some(Str("[]")) && n.multiline.None?
      else
        && n.Branch? && |n.children| == |items|
        && forall i :: 0 <= i < |items| ==>
             n.children[i].caption == "[" + Decimal(i) + "]" && Shows(n.children[i], items[i])
    case Obj(fields) =>
      if fields == [] then n.Leaf? && n.inlineValue == Some(Str("{}")) && n.multiline.None?
      else
        && n.Branch? && |n.children| == |fields|
        && forall i :: 0 <= i < |fields| ==>
             n.children[i].caption == fields[i].name && Shows(n.children[i], fields[i].value)
    case Str(s) =>
      && n.Leaf?
      && if '\n' in s then n.inlineValue.None? && n.multiline == Some(s)
         else n.inlineValue == Some(v) && n.multiline.None?
    case _ => n.Leaf? && n.inlineValue == Some(v) && n.multiline.None?
  }

  predicate HasEntries(v: Json) {
    match v
    case Arr(items) => items != []
    case Obj(fields) => fields != []
    case _ => false
  }

  lemma NodeCaption(caption: string, v: Json, key: string)
    ensures CreateNode(caption, v, key).caption == caption && CreateNode(caption, v, key).key == key
  {
  }

  predicate ShowsChild(n: Node, v: Json, i: nat)
    requires i < ChildCount(v)
  {
    n.caption == ChildLabel(v, i) && Shows(n, Child(v, i))
  }

  /** The nodes show the children from position `i` on. */
  predicate ShowFrom(nodes: seq<Node>, v: Json, i: nat) {
    i + |nodes| == ChildCount(v) && forall k :: 0 <= k < |nodes| ==> ShowsChild(nodes[k], v, i + k)
  }

  lemma ShowOneMore(n: Node, rest: seq<Node>, v: Json, i: nat)
    requires i < ChildCount(v) && ShowFrom(rest, v, i + 1) && ShowsChild(n, v, i)
    ensures ShowFrom([n] + rest, v, i)
  {
    var all := [n] + rest;
    forall k | 0 <= k < |all| ensures ShowsChild(all[k], v, i + k) {
      if k > 0 {
        assert all[k] == rest[k - 1] && ShowsChild(rest[k - 1], v, i + 1 + (k - 1));
      }
    }
  }

  lemma ShowAll(key: string, caption: string, nodes: seq<Node>, v: Json)
    requires ChildCount(v) > 0 && ShowFrom(nodes, v, 0)
    ensures Shows(Branch(key, caption, nodes), v)
  {
    assert forall k :: 0 <= k < ChildCount(v) ==> ShowsChild(nodes[k], v, k);
  }

  lemma LeafShows(caption: string, v: Json, key: string)
    requires ChildCount(v) == 0
    ensures Shows(CreateLeaf(caption, v, key), v) && CreateLeaf(caption, v, key).caption == caption
    ensures CreateLeaf(caption, v, key).key == key
  {
  }

  lemma {:induction false} NodeShows(caption: string, v: Json, key: string)
    ensures Shows(CreateNode(caption, v, key), v)
    decreases v, ChildCount(v) + 1
  {
    if ChildCount(v) == 0 {
      LeafShows(caption, v, key);
    } else {
      ChildrenShow(v, 0, key);
      ShowAll(key, caption, CreateChildren(v, 0, key), v);
    }
  }

  lemma {:induction false} ChildrenShow(v: Json, i: nat, key: string)
    requires i <= ChildCount(v)
    ensures ShowFrom(CreateChildren(v, i, key), v, i)
    decreases v, ChildCount(v) - i
  {
    if i < ChildCount(v) {
      NodeShows(ChildLabel(v, i), Child(v, i), ChildKey(key, v, i));
      NodeCaption(ChildLabel(v, i), Child(v, i), ChildKey(key, v, i));
      ChildrenShow(v, i + 1, key);
      ShowOneMore(CreateNode(ChildLabel(v, i), Child(v, i), ChildKey(key, v, i)), CreateChildren(v, i + 1, key), v, i);
    }
  }

  /** The whole tree: nothing for undefined, the entries of a collection, and otherwise one node captioned "value". */
  lemma TreeShowsValue(v: Json)
    ensures var nodes := BuildTreeData(v);
      && (v.Undefined? ==> nodes == [])
      && (HasEntries(v) ==> Shows(Branch(ROOT, "", nodes), v))
      && (!v.Undefined? && !HasEntries(v) ==>
            && |nodes| == 1 && nodes[0].caption == "value" && Shows(nodes[0], v)
            && nodes[0].key == if v.Arr? || v.Obj? then "pretty-root" else "pretty-root.value")
  {
    if ChildCount(v) > 0 {
      ChildrenShow(v, 0, ROOT);
      ShowAll(ROOT, "", BuildTreeData(v), v);
    } else {
      LeafShows("value", v, ROOT);
      LeafShows("value", v, ROOT + ".value");
    }
  }

  // ---------------------------------------------------------------- names that cannot clash

  /** The two names are different, and neither continues the other after a dot. */
  predicate Unrelated(s: string, t: string) {
    s != t && !(s + "." <= t) && !(t + "." <= s)
  }

  /** In no object does a name repeat another or continue it after a dot. */
  predicate UnrelatedNames(v: Json)
    decreases v
  {
    && (v.Obj? ==> forall i, j :: 0 <= i < j < |v.fields| ==> Unrelated(v.fields[i].name, v.fields[j].name))
    && forall i :: 0 <= i < ChildCount(v) ==> UnrelatedNames(Child(v, i))
  }

  /** No name contains a dot, and no object has a name twice. */
  predicate PlainNames(v: Json)
    decreases v
  {
    && (v.Obj? ==> forall i :: 0 <= i < |v.fields| ==> '.' !in v.fields[i].name)
    && (v.Obj? ==> forall i, j :: 0 <= i < j < |v.fields| ==> v.fields[i].name != v.fields[j].name)
    && forall i :: 0 <= i < ChildCount(v) ==> PlainNames(Child(v, i))
  }

  /** `r` is the name or continues it after a dot. */
  predicate Begins(name: string, r: string) {
    r == name || name + "." <= r
  }

  lemma {:induction false} SpelledBegins(v: Json, i: nat, r: string)
    requires i <= ChildCount(v) && r in SpelledFrom(v, i)
    ensures exists c :: i <= c < ChildCount(v) && Begins(ChildName(v, c), r)
    decreases ChildCount(v) - i
  {
    if r in SpelledAt(v, i) {
      assert Begins(ChildName(v, i), r);
    } else {
      SpelledBegins(v, i + 1, r);
    }
  }

  lemma BothBegin(s: string, t: string, r: string)
    requires Begins(s, r) && Begins(t, r)
    ensures !Unrelated(s, t)
  {
    if |s| < |t| {
      assert r[..|s| + 1] == s + "." && t[..|s| + 1] == r[..|s| + 1];
    } else if |t| < |s| {
      assert r[..|t| + 1] == t + "." && s[..|t| + 1] == r[..|t| + 1];
    } else {
      assert r[..|s|] == s && r[..|t|] == t;
    }
  }

  lemma OnlyOneBegins(s: string, t: string, r: string)
    requires Unrelated(s, t) && Begins(t, r)
    ensures !Begins(s, r)
  {
    if Begins(s, r) {
      BothBegin(s, t, r);
      assert false;
    }
  }

  lemma ChildrenUnrelated(v: Json, i: nat, j: nat)
    requires UnrelatedNames(v) && i < j < ChildCount(v)
    ensures Unrelated(ChildName(v, i), ChildName(v, j))
  {
    if v.Arr? {
      if Decimal(i) == Decimal(j) {
        DecimalIsInjective(i, j);
      }
      NoDot(i, Decimal(j));
      NoDot(j, Decimal(i));
    }
  }

  lemma DotAfter(s: string, t: string)
    ensures s + "." <= t ==> '.' in t
  {
    if s + "." <= t {
      assert t[|s|] == '.';
    }
  }

  lemma NoDot(n: nat, s: string)
    ensures !(s + "." <= Decimal(n))
  {
    DotAfter(s, Decimal(n));
    assert '.' !in DIGITS;
  }

  lemma SpelledAtBegins(v: Json, i: nat, r: string)
    requires i < ChildCount(v)
    ensures r in SpelledAt(v, i) ==> Begins(ChildName(v, i), r)
  {
  }

  lemma SpelledOnce(v: Json, i: nat, r: string)
    requires UnrelatedNames(v) && i < ChildCount(v) && r in SpelledFrom(v, i + 1)
    ensures r !in SpelledAt(v, i)
  {
    SpelledBegins(v, i + 1, r);
    var c :| i + 1 <= c < ChildCount(v) && Begins(ChildName(v, c), r);
    ChildrenUnrelated(v, i, c);
    OnlyOneBegins(ChildName(v, i), ChildName(v, c), r);
    SpelledAtBegins(v, i, r);
  }

  lemma {:induction false} UnrelatedAreUnambiguous(v: Json, i: nat)
    requires UnrelatedNames(v) && i <= ChildCount(v)
    ensures Unambiguous(v, i)
    decreases v, ChildCount(v) - i
  {
    if i < ChildCount(v) {
      UnrelatedAreUnambiguous(Child(v, i), 0);
      UnrelatedAreUnambiguous(v, i + 1);
      UnrelatedSpellApart(v, i);
      UnambiguousStep(v, i);
    }
  }

  lemma UnrelatedSpellApart(v: Json, i: nat)
    requires UnrelatedNames(v) && i < ChildCount(v)
    ensures SpelledAt(v, i) !! SpelledFrom(v, i + 1)
  {
    forall r | r in SpelledFrom(v, i + 1) ensures r !in SpelledAt(v, i) {
      SpelledOnce(v, i, r);
    }
  }

  lemma {:induction false} PlainNamesAreUnrelated(v: Json)
    requires PlainNames(v)
    ensures UnrelatedNames(v)
    decreases v
  {
    if v.Obj? {
      forall i, j | 0 <= i < j < |v.fields| ensures Unrelated(v.fields[i].name, v.fields[j].name) {
        DotAfter(v.fields[i].name, v.fields[j].name);
        DotAfter(v.fields[j].name, v.fields[i].name);
      }
    }
    forall i | 0 <= i < ChildCount(v) ensures UnrelatedNames(Child(v, i)) {
      PlainNamesAreUnrelated(Child(v, i));
    }
  }

  /** In particular, dots do no harm as long as no name continues another after a dot. */
  lemma UnrelatedNamesIdentifyNodes(v: Json)
    requires UnrelatedNames(v)
    ensures Distinct(PreOrder(BuildTreeData(v)))
  {
    UnrelatedAreUnambiguous(v, 0);
    KeysIdentifyNodesExactly(v);
  }

  /** For every value whose names are plain, no two nodes of its tree have the same key. */
  lemma KeysIdentifyNodes(v: Json)
    requires PlainNames(v)
    ensures Distinct(PreOrder(BuildTreeData(v)))
  {
    PlainNamesAreUnrelated(v);
    UnrelatedNamesIdentifyNodes(v);
  }

  /** A name that continues another after a dot can spell the path to a node below that, as in
      {"a": {"b": null}, "a.b": null}. */
  lemma DotsMakeKeysClash() returns (v: Json)
    ensures !Distinct(PreOrder(BuildTreeData(v)))
  {
    var inner := Obj([Field("b", Null)]);
    v := Obj([Field("a", inner), Field("a.b", Null)]);
    assert "b" in SpelledAt(inner, 0) && "b" in SpelledFrom(inner, 0);
    assert "a" + "." + "b" == "a.b";
    assert "a.b" in SpelledAt(v, 0);
    assert "a.b" in SpelledAt(v, 1) && "a.b" in SpelledFrom(v, 1);
    KeysIdentifyNodesExactly(v);
  }

  // ---------------------------------------------------------------- collecting the keys of branches

  function BranchesOf(keys: seq<(string, bool)>): seq<string> {
    if keys == [] then []
    else BranchesOf(keys[..|keys| - 1]) + if keys[|keys| - 1].1 then [keys[|keys| - 1].0] else []
  }

  lemma {:induction false} BranchesOfAppend(a: seq<(string, bool)>, b: seq<(string, bool)>)
    ensures BranchesOf(a + b) == BranchesOf(a) + BranchesOf(b)
  {
    if b == [] {
      assert a + b == a;
    } else {
      assert (a + b)[..|a + b| - 1] == a + b[..|b| - 1];
      BranchesOfAppend(a, b[..|b| - 1]);
    }
  }

  /** The keys that the collecting loop pushes for the nodes up to the last. */
  function BranchKeys(nodes: seq<Node>): seq<string> {
    if nodes == [] then []
    else
      var last := nodes[|nodes| - 1];
      BranchKeys(nodes[..|nodes| - 1])
      + if last.Branch? && |last.children| > 0 then [last.key] + BranchKeys(last.children) else []
  }

  lemma {:induction false} PreOrderAppend(nodes: seq<Node>, last: Node)
    ensures PreOrder(nodes + [last]) == PreOrder(nodes) + PreOrder([last])
  {
    if nodes == [] {
      assert nodes + [last] == [last];
    } else {
      var first, rest := nodes[0], nodes[1..];
      PreOrderAppend(rest, last);
      assert (nodes + [last])[0] == first && (nodes + [last])[1..] == rest + [last];
      PreOrderFirst(nodes + [last]);
      PreOrderFirst(nodes);
      Associative(PreOrder([first]), PreOrder(rest), PreOrder([last]));
    }
  }

  lemma Associative<T>(a: seq<T>, b: seq<T>, c: seq<T>)
    ensures a + (b + c) == (a + b) + c
  {
  }

  lemma BranchesOfNode(n: Node)
    ensures BranchesOf(PreOrder([n])) ==
      (if |Children(n)| > 0 then [n.key] else []) + BranchesOf(PreOrder(Children(n)))
  {
    PreOrderOne(n);
    BranchesOfAppend([(n.key, |Children(n)| > 0)], PreOrder(Children(n)));
    assert [(n.key, |Children(n)| > 0)][..0] == [];
  }

  lemma {:induction false} BranchKeysInPreOrder(nodes: seq<Node>)
    ensures BranchKeys(nodes) == BranchesOf(PreOrder(nodes))
  {
    if nodes != [] {
      var init, last := nodes[..|nodes| - 1], nodes[|nodes| - 1];
      BranchKeysInPreOrder(init);
      assert nodes == init + [last];
      PreOrderAppend(init, last);
      BranchesOfAppend(PreOrder(init), PreOrder([last]));
      BranchesOfNode(last);
      if last.Branch? {
        BranchKeysInPreOrder(last.children);
      }
    }
  }

  /** Exactly the keys of the nodes with children, in pre-order. */
  method CollectKeys(nodes: seq<Node>) returns (keys: seq<string>)
    ensures keys == BranchesOf(PreOrder(nodes))
  {
    keys := CollectKeysRecursive(nodes, []);
    BranchKeysInPreOrder(nodes);
  }

  method CollectKeysRecursive(nodes: seq<Node>, start: seq<string>) returns (keys: seq<string>)
    ensures keys == start + BranchKeys(nodes)
    decreases nodes
  {
    keys := start;
    for i := 0 to |nodes|
      invariant keys == start + BranchKeys(nodes[..i])
    {
      assert nodes[..i + 1][..i] == nodes[..i];
      if nodes[i].Branch? && |nodes[i].children| > 0 {
        keys := keys + [nodes[i].key];
        keys := CollectKeysRecursive(nodes[i].children, keys);
      }
    }
    assert nodes[..|nodes|] == nodes;
  }
}
