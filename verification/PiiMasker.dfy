/**
  The masker as it runs: maskMap rewrites a tree of maps and slices in place
  (internal/infrastructure/gateway/interceptors/pii_masker.go).
 */
module PiiMasker {
  import opened Outcomes
  import opened PiiMasking

  /** What a map entry or a slice element holds: a leaf value, or a reference. */
  datatype Node =
    | Leaf(value: Json)
    | MapNode(m: JsonMap)
    | SliceNode(s: JsonSlice)
  {
    /** The objects a node stands on. */
    ghost function Foot(): set<object>
      reads if MapNode? then {m} else {}, if SliceNode? then {s} else {}
    {
      match this
      case Leaf(_) => {}
      case MapNode(m) => m.Repr
      case SliceNode(s) => s.Repr
    }

    ghost predicate Within(repr: set<object>)
      reads repr
      decreases repr, 0
    {
      match this
      case Leaf(v) => !v.Object? && !v.Array?
      case MapNode(m) => m in repr && m.Repr < repr && m.Valid()
      case SliceNode(s) => s in repr && s.Repr < repr && s.Valid()
    }

    /** The JSON tree a node stands for. */
    ghost function Tree(repr: set<object>): Json
      requires Within(repr)
      reads repr
      decreases repr, 0
    {
      match this
      case Leaf(v) => v
      case MapNode(m) => m.Tree()
      case SliceNode(s) => s.Tree()
    }
  }

  class JsonMap {
    var entries: map<string, Node>
    ghost var Repr: set<object>

    /** A tree: the parts are well formed, lie apart from each other, and do not lead back here. */
    ghost predicate Valid()
      reads this, Repr
      decreases Repr, 1
    {
      && this in Repr
      && (forall k :: k in entries ==> entries[k].Within(Repr) && this !in entries[k].Foot())
      && (forall j, k :: j in entries && k in entries && j != k ==> entries[j].Foot() !! entries[k].Foot())
    }

    ghost function Tree(): (j: Json)
      requires Valid()
      reads this, Repr
      ensures j.Object?
      decreases Repr, 1
    {
      Object(map k | k in entries :: entries[k].Tree(Repr))
    }

    /** A node none of whose objects changed is as well formed as before and stands for the same tree. */
    twostate lemma EntryKept(k: string)
      requires old(Valid()) && Repr == old(Repr) && k in old(entries) && k in entries && entries[k] == old(entries[k])
      requires forall o :: o in old(entries[k].Foot()) ==> unchanged(o)
      ensures entries[k].Foot() == old(entries[k].Foot())
      ensures entries[k].Within(Repr) && entries[k].Tree(Repr) == old(entries[k].Tree(Repr))
    {
      assert old(entries[k].Within(Repr));
      match entries[k]
      case Leaf(_) =>
      case MapNode(c) => assert old(c.Valid()) && old(c in c.Repr);
      case SliceNode(s) => assert old(s.Valid()) && old(s in s.Repr);
    }

    /** After a change to one entry and to what it stood on, only that entry's part of the tree is new. */
    twostate lemma OneEntryChanged(key: string)
      requires old(Valid()) && Repr == old(Repr) && key in old(entries) && entries.Keys == old(entries).Keys
      requires forall k :: k in entries && k != key ==> entries[k] == old(entries[k])
      requires forall o :: o in old(Repr) && o != this && o !in old(entries[key].Foot()) ==> unchanged(o)
      requires entries[key].Within(Repr) && entries[key].Foot() <= old(entries[key].Foot())
      ensures Valid()
      ensures Tree().fields == old(Tree().fields)[key := entries[key].Tree(Repr)]
    {
      hide Node.Within, Node.Tree;
      forall k | k in entries && k != key
        ensures entries[k].Foot() == old(entries[k].Foot())
        ensures entries[k].Within(Repr) && entries[k].Tree(Repr) == old(entries[k].Tree(Repr))
      {
        FootInside(k);
        EntryKept(k);
      }
    }

    twostate lemma FootInside(k: string)
      requires old(Valid()) && k in old(entries)
      ensures old(entries[k].Foot()) <= old(Repr)
    {
    }
  }

  class JsonSlice {
    var items: seq<Node>
    ghost var Repr: set<object>

    ghost predicate Valid()
      reads this, Repr
      decreases Repr, 1
    {
      && this in Repr
      && (forall i :: 0 <= i < |items| ==> items[i].Within(Repr) && this !in items[i].Foot())
      && (forall i, j :: 0 <= i < |items| && 0 <= j < |items| && i != j ==> items[i].Foot() !! items[j].Foot())
    }

    ghost function Tree(): (j: Json)
      requires Valid()
      reads this, Repr
      ensures j.Array?
      decreases Repr, 1
    {
      Array(seq(|items|, i requires 0 <= i < |items| && items[i].Within(Repr) reads this, Repr => items[i].Tree(Repr)))
    }

    twostate lemma ItemKept(i: nat)
      requires old(Valid()) && Repr == old(Repr) && i < |items| == |old(items)| && items[i] == old(items[i])
      requires forall o :: o in old(items[i].Foot()) ==> unchanged(o)
      ensures items[i].Foot() == old(items[i].Foot())
      ensures items[i].Within(Repr) && items[i].Tree(Repr) == old(items[i].Tree(Repr))
    {
      assert old(items[i].Within(Repr));
      match items[i]
      case Leaf(_) =>
      case MapNode(c) => assert old(c.Valid()) && old(c in c.Repr);
      case SliceNode(s) => assert old(s.Valid()) && old(s in s.Repr);
    }

    /** After a change to what one item stood on, only that item's part of the tree is new. */
    twostate lemma OneItemChanged(at: nat)
      requires old(Valid()) && Repr == old(Repr) && at < |items| && items == old(items)
      requires forall o :: o in old(Repr) && o != this && o !in old(items[at].Foot()) ==> unchanged(o)
      requires items[at].Within(Repr) && items[at].Foot() <= old(items[at].Foot())
      ensures Valid()
      ensures Tree().items == old(Tree().items)[at := items[at].Tree(Repr)]
    {
      hide Node.Within, Node.Tree;
      forall i: nat | i < |items| && i != at
        ensures items[i].Foot() == old(items[i].Foot())
        ensures items[i].Within(Repr) && items[i].Tree(Repr) == old(items[i].Tree(Repr))
      {
        ItemInside(i);
        ItemKept(i);
      }
    }

    twostate lemma ItemInside(i: nat)
      requires old(Valid()) && i < |old(items)|
      ensures old(items[i].Foot()) <= old(Repr)
    {
    }
  }

  /**
    One key of maskMap's loop: the entry is overwritten when its key is sensitive, and what it held is
    masked all the same.
   */
  method MaskEntry(masker: Masker, m: JsonMap, key: string)
    requires m.Valid() && key in m.entries
    modifies m.Repr
    ensures m.Valid() && m.Repr == old(m.Repr)
    ensures m.Tree().fields == old(m.Tree().fields)[key := MaskedField(masker, key, old(m.Tree().fields)[key])]
    decreases m.Repr, 0
  {
    var value := m.entries[key];
    assert value.Within(m.Repr) && m !in value.Foot();
    if masker.sensitive(key) {
      m.entries := m.entries[key := Leaf(Text(masker.maskValue))];
    }
    match value {
      case Leaf(_) =>
      case MapNode(nested) => MaskMap(masker, nested);
      case SliceNode(slice) => MaskItems(masker, slice);
    }
    m.OneEntryChanged(key);
  }

  function MaskedField(masker: Masker, key: string, value: Json): Json {
    if masker.sensitive(key) then Text(masker.maskValue) else masker.MaskValue(value)
  }

  /** The fields when all but those in todo have been dealt with. */
  function PartlyMasked(masker: Masker, fields: map<string, Json>, todo: set<string>): map<string, Json> {
    map k | k in fields :: if k in todo then fields[k] else MaskedField(masker, k, fields[k])
  }

  lemma PartlyMaskedStep(masker: Masker, fields: map<string, Json>, todo: set<string>, key: string)
    requires key in todo && key in fields
    ensures var now := PartlyMasked(masker, fields, todo);
      && key in now
      && now[key := MaskedField(masker, key, now[key])] == PartlyMasked(masker, fields, todo - {key})
  {
  }

  lemma PartlyMaskedEnds(masker: Masker, fields: map<string, Json>)
    ensures PartlyMasked(masker, fields, fields.Keys) == fields
    ensures Object(PartlyMasked(masker, fields, {})) == masker.MaskValue(Object(fields))
  {
  }

  /** maskMap: whatever the order of the keys, the tree becomes its masked form. */
  method MaskMap(masker: Masker, m: JsonMap)
    requires m.Valid()
    modifies m.Repr
    ensures m.Valid() && m.Repr == old(m.Repr)
    ensures m.Tree() == masker.MaskValue(old(m.Tree()))
    decreases m.Repr, 1
  {
    hide MaskedField, PartlyMasked, JsonMap.Valid;
    ghost var fields := m.Tree().fields;
    var todo := m.entries.Keys;
    PartlyMaskedEnds(masker, fields);
    assert fields.Keys == todo;
    while todo != {}
      invariant m.Valid() && m.Repr == old(m.Repr)
      invariant todo <= fields.Keys
      invariant m.Tree().fields == PartlyMasked(masker, fields, todo)
      decreases todo
    {
      var key :| key in todo;
      assert m.Tree().fields.Keys == m.entries.Keys;
      PartlyMaskedStep(masker, fields, todo, key);
      MaskEntry(masker, m, key);
      todo := todo - {key};
    }
  }

  /**
    maskBody, given what parsing the body as an object gave: a tree to be masked in place, or nothing, and then
    the body is handed on as it is.
   */
  method MaskParsed(masker: Masker, data: JsonMap?)
    requires data != null ==> data.Valid()
    modifies if data != null then data.Repr else {}
    ensures data != null ==> data.Valid() && data.Repr == old(data.Repr)
    ensures data != null ==> MaskedByPosition(masker, old(data.Tree()), data.Tree())
    ensures data != null ==> MaskBody(masker, Some(old(data.Tree()))) == Some(data.Tree())
  {
    if data != null {
      BodyByPosition(masker, Some(data.Tree()));
      MaskMap(masker, data);
    }
  }

  method MaskItems(masker: Masker, s: JsonSlice)
    requires s.Valid()
    modifies s.Repr
    ensures s.Valid() && s.Repr == old(s.Repr)
    ensures s.Tree() == masker.MaskValue(old(s.Tree()))
    decreases s.Repr, 1
  {
    ghost var items := s.Tree().items;
    var i := 0;
    while i < |s.items|
      invariant s.Valid() && s.Repr == old(s.Repr)
      invariant i <= |s.items| == |items|
      invariant s.Tree().items == 
        seq(|items|, j requires 0 <= j < |items| => if j < i then masker.MaskItem(items[j]) else items[j])
    {
      MaskOneItem(masker, s, i);
      i := i + 1;
    }
  }

  method MaskOneItem(masker: Masker, s: JsonSlice, i: nat)
    requires s.Valid() && i < |s.items|
    modifies s.Repr
    ensures s.Valid() && s.Repr == old(s.Repr)
    ensures s.Tree().items == old(s.Tree().items)[i := masker.MaskItem(old(s.Tree().items)[i])]
    decreases s.Repr, 0
  {
    var item := s.items[i];
    assert item.Within(s.Repr) && s !in item.Foot();
    if item.MapNode? {
      MaskMap(masker, item.m);
      s.items := s.items[i := MapNode(item.m)];
      assert s.items == old(s.items);
    }
    s.OneItemChanged(i);
  }
}
