/**
 * The hierarchical document store under the data-access layer, as an
 * in-memory tree: a collection path names an ordered sequence of children,
 * each a key and a leaf document (a field-to-value map).
 */
module Store {
  import opened Wrappers

  /** A stored leaf value: the store keeps strings, integral numbers and booleans. */
  datatype Value = Str(s: string) | Num(n: int) | Bool(b: bool)

  /** A leaf document: field name to value. */
  type Doc = map<string, Value>

  /** One child of a collection: its key and its document. */
  datatype Child = Child(key: string, doc: Doc)

  /** A collection path, one segment per `child(...)` step from the root. */
  type Path = seq<string>

  /** The outcome of one single-value read: the listener's `onCancelled` or its `onDataChange`. */
  datatype Fetch<T> = Cancelled | Loaded(value: T)

  /** The children of one collection carry distinct keys (it is a tree). */
  predicate DistinctKeys(cs: seq<Child>) {
    forall i, j :: 0 <= i < j < |cs| ==> cs[i].key != cs[j].key
  }

  predicate HasKey(cs: seq<Child>, k: string) {
    exists i :: 0 <= i < |cs| && cs[i].key == k
  }

  /** `i` is the position of the first child keyed `k`. */
  predicate FirstIndex(cs: seq<Child>, k: string, i: nat) {
    i < |cs| && cs[i].key == k && forall j :: 0 <= j < i ==> cs[j].key != k
  }

  /** The position of the first child keyed `k`, if any. */
  function IndexOf(cs: seq<Child>, k: string): (r: Option<nat>)
    ensures r.Some? ==> FirstIndex(cs, k, r.value)
    ensures r.None? <==> !HasKey(cs, k)
  {
    if |cs| == 0 then None
    else if cs[0].key == k then Some(0)
    else
      match IndexOf(cs[1..], k)
      case Some(i) =>
        assert cs[i + 1] == cs[1..][i];
        Some(i + 1)
      case None =>
        assert !HasKey(cs, k);
        None
  }

  lemma FirstIndexUnique(cs: seq<Child>, k: string, i: nat, i': nat)
    requires FirstIndex(cs, k, i) && FirstIndex(cs, k, i')
    ensures i == i'
  {
  }

  /** In a collection with distinct keys, every child is the first with its key. */
  lemma {:induction false} DistinctIndexOf(cs: seq<Child>, i: nat)
    requires DistinctKeys(cs) && i < |cs|
    ensures IndexOf(cs, cs[i].key) == Some(i)
  {
    var r := IndexOf(cs, cs[i].key);
    assert r.Some?;
    FirstIndexUnique(cs, cs[i].key, r.value, i);
  }

  /** The document stored at key `k`, or None when no child has that key. */
  function Lookup(cs: seq<Child>, k: string): (r: Option<Doc>)
    ensures r.Some? <==> HasKey(cs, k)
    ensures r.Some? ==> exists i :: 0 <= i < |cs| && cs[i] == Child(k, r.value)
  {
    match IndexOf(cs, k)
    case Some(i) => Some(cs[i].doc)
    case None => None
  }

  /** Two collections that agree on the keys of a common prefix and add no key `k` afterwards look `k` up alike. */
  lemma {:induction false} LookupAgrees(cs: seq<Child>, r: seq<Child>, k: string, n: nat)
    requires n <= |cs| && n <= |r|
    requires forall j :: 0 <= j < n ==> r[j] == cs[j]
    requires forall j :: n <= j < |cs| ==> cs[j].key != k
    requires forall j :: n <= j < |r| ==> r[j].key != k
    ensures Lookup(r, k) == Lookup(cs, k)
  {
    match IndexOf(cs, k)
    case Some(i) =>
      assert FirstIndex(r, k, i);
      FirstIndexUnique(r, k, IndexOf(r, k).value, i);
    case None =>
      assert !HasKey(r, k);
  }

  /**
   * `setValue` at `k`: a full replace of the document at an existing key,
   * in place; a new key is added after the existing children.
   */
  function SetChild(cs: seq<Child>, k: string, d: Doc): (r: seq<Child>)
    ensures Lookup(r, k) == Some(d)
    ensures forall k' :: k' != k ==> Lookup(r, k') == Lookup(cs, k')
    ensures HasKey(cs, k) ==> |r| == |cs|
    ensures !HasKey(cs, k) ==> r == cs + [Child(k, d)]
    ensures DistinctKeys(cs) ==> DistinctKeys(r)
  {
    match IndexOf(cs, k)
    case Some(i) =>
      var r := cs[i := Child(k, d)];
      assert FirstIndex(r, k, i);
      FirstIndexUnique(r, k, IndexOf(r, k).value, i);
      forall k' | k' != k ensures Lookup(r, k') == Lookup(cs, k') {
        if IndexOf(cs, k').Some? {
          var j := IndexOf(cs, k').value;
          assert FirstIndex(r, k', j);
          FirstIndexUnique(r, k', IndexOf(r, k').value, j);
        } else {
          assert !HasKey(r, k');
        }
      }
      r
    case None =>
      var r := cs + [Child(k, d)];
      assert FirstIndex(r, k, |cs|);
      FirstIndexUnique(r, k, IndexOf(r, k).value, |cs|);
      forall k' | k' != k ensures Lookup(r, k') == Lookup(cs, k') {
        LookupAgrees(cs, r, k', |cs|);
      }
      r
  }

  /** `removeValue` at `k`: drops the child with that key, keeps the others in order. */
  function RemoveChild(cs: seq<Child>, k: string): (r: seq<Child>)
    requires DistinctKeys(cs)
    ensures Lookup(r, k) == None
    ensures forall k' :: k' != k ==> Lookup(r, k') == Lookup(cs, k')
    ensures !HasKey(cs, k) ==> r == cs
    ensures HasKey(cs, k) ==> |r| == |cs| - 1
    ensures DistinctKeys(r)
  {
    match IndexOf(cs, k)
    case Some(i) =>
      var r := cs[..i] + cs[i + 1..];
      assert forall j :: 0 <= j < |r| ==> r[j] == if j < i then cs[j] else cs[j + 1];
      assert !HasKey(r, k);
      forall k' | k' != k ensures Lookup(r, k') == Lookup(cs, k') {
        if IndexOf(cs, k').Some? {
          var j := IndexOf(cs, k').value;
          var j' := if j < i then j else j - 1;
          assert FirstIndex(r, k', j');
          FirstIndexUnique(r, k', IndexOf(r, k').value, j');
        } else {
          assert !HasKey(r, k');
        }
      }
      r
    case None => cs
  }

  /** With distinct keys, removing the key of child `i` removes exactly that child. */
  lemma RemoveChildAt(cs: seq<Child>, i: nat)
    requires DistinctKeys(cs) && i < |cs|
    ensures RemoveChild(cs, cs[i].key) == cs[..i] + cs[i + 1..]
  {
    DistinctIndexOf(cs, i);
  }

  function KeyLengths(cs: seq<Child>): nat {
    if |cs| == 0 then 0 else |cs[0].key| + KeyLengths(cs[1..])
  }

  lemma {:induction false} KeyLengthBound(cs: seq<Child>, i: nat)
    requires i < |cs|
    ensures |cs[i].key| <= KeyLengths(cs)
  {
    if i > 0 {
      KeyLengthBound(cs[1..], i - 1);
    }
  }

  /**
   * The key `push()` allocates. The store's own generator (time plus
   * randomness) is abstracted to a key longer than every key present, so it
   * is fresh; the new child goes after the existing ones, as push keys sort
   * by creation time.
   */
  function PushKey(cs: seq<Child>): (k: string)
    ensures !HasKey(cs, k)
  {
    var k := seq(KeyLengths(cs) + 1, _ => '-');
    forall i | 0 <= i < |cs| ensures cs[i].key != k {
      KeyLengthBound(cs, i);
    }
    k
  }

  /** The children under `p`; a path with no node has none. */
  function ChildrenAt(nodes: map<Path, seq<Child>>, p: Path): seq<Child> {
    if p in nodes then nodes[p] else []
  }

  /** Every collection of the tree has distinct keys. */
  ghost predicate WellFormed(nodes: map<Path, seq<Child>>) {
    forall p :: p in nodes ==> DistinctKeys(nodes[p])
  }

  /** `child(p).child(k).setValue(d)`. */
  function Put(nodes: map<Path, seq<Child>>, p: Path, k: string, d: Doc): (r: map<Path, seq<Child>>)
    ensures Lookup(ChildrenAt(r, p), k) == Some(d)
    ensures forall k' :: k' != k ==> Lookup(ChildrenAt(r, p), k') == Lookup(ChildrenAt(nodes, p), k')
    ensures forall q :: q != p ==> ChildrenAt(r, q) == ChildrenAt(nodes, q)
    ensures WellFormed(nodes) ==> WellFormed(r)
  {
    nodes[p := SetChild(ChildrenAt(nodes, p), k, d)]
  }

  /** `child(p).child(k).removeValue()`; removing an absent key changes nothing. */
  function Remove(nodes: map<Path, seq<Child>>, p: Path, k: string): (r: map<Path, seq<Child>>)
    requires WellFormed(nodes)
    ensures Lookup(ChildrenAt(r, p), k) == None
    ensures forall k' :: k' != k ==> Lookup(ChildrenAt(r, p), k') == Lookup(ChildrenAt(nodes, p), k')
    ensures forall q :: q != p ==> ChildrenAt(r, q) == ChildrenAt(nodes, q)
    ensures WellFormed(r)
  {
    nodes[p := RemoveChild(ChildrenAt(nodes, p), k)]
  }

  /** `child(p).push().setValue(d)`: one new child, under a fresh key, after the others. */
  function Append(nodes: map<Path, seq<Child>>, p: Path, d: Doc): (r: map<Path, seq<Child>>)
    ensures var cs := ChildrenAt(nodes, p);
      ChildrenAt(r, p) == cs + [Child(PushKey(cs), d)] && !HasKey(cs, PushKey(cs))
    ensures forall q :: q != p ==> ChildrenAt(r, q) == ChildrenAt(nodes, q)
    ensures WellFormed(nodes) ==> WellFormed(r)
  {
    var cs := ChildrenAt(nodes, p);
    var k := PushKey(cs);
    assert SetChild(cs, k, d) == cs + [Child(k, d)];
    Put(nodes, p, k, d)
  }
}
