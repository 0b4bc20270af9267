/**
  What masking does to a JSON tree (internal/infrastructure/gateway/interceptors/pii_masker.go), on values.

  Masking enters objects, and objects that are direct items of an array that is itself a field.  It does
  not enter arrays directly inside arrays, and a document that is not an object is left alone.
 */
module PiiMasking {
  import opened Outcomes

  datatype Json =
    | Null
    | Bool(b: bool)
    | Number(text: string)
    | Text(s: string)
    | Object(fields: map<string, Json>)
    | Array(items: seq<Json>)

  /** Which keys are masked, and what replaces their values. */
  datatype Masker = Masker(sensitive: string -> bool, maskValue: string) {
    /** The value of a field, or the whole of an object document. */
    function MaskValue(j: Json): Json
      decreases j, 0
    {
      match j
      case Object(fields) =>
        Object(map k | k in fields :: if sensitive(k) then Text(maskValue) else MaskValue(fields[k]))
      case Array(items) => Array(seq(|items|, i requires 0 <= i < |items| => MaskItem(items[i])))
      case _ => j
    }

    /** An item of an array: entered only when it is an object. */
    function MaskItem(j: Json): Json
      decreases j, 1
    {
      if j.Object? then MaskValue(j) else j
    }
  }

  /** maskBody, on a parsed body: none is a body that is not JSON.  Only an object is rewritten. */
  function MaskBody(m: Masker, body: Option<Json>): Option<Json> {
    if body.Some? && body.value.Object? then Some(m.MaskValue(body.value)) else body
  }

  // ----- Which positions are masked -----

  datatype Selector = Key(k: string) | Index(i: nat)

  type Path = seq<Selector>

  function Select(j: Json, s: Selector): Option<Json> {
    match s
    case Key(k) => if j.Object? && k in j.fields then Some(j.fields[k]) else None
    case Index(i) => if j.Array? && i < |j.items| then Some(j.items[i]) else None
  }

  /** The value at a path, when there is one. */
  function At(j: Json, path: Path): Option<Json>
    decreases |path|
  {
    if path == [] then Some(j)
    else
      var child := Select(j, path[0]);
      if child.None? then None else At(child.value, path[1..])
  }

  /**
    How a value was reached: as a field, as an item (or as the whole document), or through an array
    directly inside an array.
   */
  datatype Mode = Field | Item | Sealed

  function NextMode(mode: Mode, s: Selector): Mode {
    match mode
    case Field => if s.Key? then Field else Item
    case Item => if s.Key? then Field else Sealed
    case Sealed => Sealed
  }

  function ModeAt(mode: Mode, path: Path): Mode
    decreases |path|
  {
    if path == [] then mode else ModeAt(NextMode(mode, path[0]), path[1..])
  }

  /** A sensitive key that masking sees. */
  predicate Masks(m: Masker, mode: Mode, s: Selector) {
    mode != Sealed && s.Key? && m.sensitive(s.k)
  }

  /** No selector of the path is a sensitive key that masking sees. */
  predicate Clear(m: Masker, mode: Mode, path: Path)
    decreases |path|
  {
    path == [] || (!Masks(m, mode, path[0]) && Clear(m, NextMode(mode, path[0]), path[1..]))
  }

  function MaskIn(m: Masker, mode: Mode, j: Json): Json {
    match mode
    case Field => m.MaskValue(j)
    case Item => m.MaskItem(j)
    case Sealed => j
  }

  lemma SelectMasked(m: Masker, mode: Mode, j: Json, s: Selector)
    ensures Select(MaskIn(m, mode, j), s) ==
      match Select(j, s)
      case None => None
      case Some(child) => Some(if Masks(m, mode, s) then Text(m.maskValue) else MaskIn(m, NextMode(mode, s), child))
  {
    assert mode.Item? && j.Object? ==> MaskIn(m, mode, j) == m.MaskValue(j);
  }

  /**
    Along a clear path the masked tree has a value exactly where the original has one, and it is that
    value, masked below.
   */
  lemma {:induction false} ClearPath(m: Masker, mode: Mode, j: Json, path: Path)
    requires Clear(m, mode, path)
    ensures At(MaskIn(m, mode, j), path) ==
      match At(j, path)
      case None => None
      case Some(v) => Some(MaskIn(m, ModeAt(mode, path), v))
    decreases |path|
  {
    if path != [] {
      SelectMasked(m, mode, j, path[0]);
      var child := Select(j, path[0]);
      if child.Some? {
        ClearPath(m, NextMode(mode, path[0]), child.value, path[1..]);
      }
    }
  }

  /** A sensitive key at the end of a clear path holds the mask value, and only if it was there. */
  lemma {:induction false} MaskedKey(m: Masker, mode: Mode, j: Json, path: Path, s: Selector)
    requires Clear(m, mode, path) && Masks(m, ModeAt(mode, path), s)
    ensures At(MaskIn(m, mode, j), path + [s]) == if At(j, path + [s]).Some? then Some(Text(m.maskValue)) else None
    decreases |path|
  {
    var whole := path + [s];
    if path == [] {
      SelectMasked(m, mode, j, s);
      assert whole[1..] == [];
    } else {
      assert whole[1..] == path[1..] + [s];
      SelectMasked(m, mode, j, path[0]);
      var child := Select(j, path[0]);
      if child.Some? {
        MaskedKey(m, NextMode(mode, path[0]), child.value, path[1..], s);
      }
    }
  }

  /** What one value looks like from outside: a leaf is itself, containers show their keys or their length. */
  datatype Head = LeafHead(j: Json) | ObjectHead(keys: set<string>) | ArrayHead(length: nat)

  function HeadOf(j: Json): Head {
    match j
    case Object(fields) => ObjectHead(fields.Keys)
    case Array(items) => ArrayHead(|items|)
    case _ => LeafHead(j)
  }

  lemma HeadKept(m: Masker, mode: Mode, j: Json)
    ensures HeadOf(MaskIn(m, mode, j)) == HeadOf(j)
  {
    assert j.Object? ==> m.MaskItem(j) == m.MaskValue(j);
  }

  /**
    Masking an object, position by position: where no masked key lies on the way, the masked document
    has a value exactly where the original had one, with the same leaf, keys or length; and each first
    sensitive key on the way to anything holds the mask value.
   */
  lemma MaskingByPosition(m: Masker, fields: map<string, Json>, path: Path)
    requires Clear(m, Item, path)
    ensures var before, after := At(Object(fields), path), At(m.MaskValue(Object(fields)), path);
      && (before.Some? <==> after.Some?)
      && (before.Some? ==> HeadOf(after.value) == HeadOf(before.value))
    ensures forall s :: (Masks(m, ModeAt(Item, path), s) && At(Object(fields), path + [s]).Some? ==>
      At(m.MaskValue(Object(fields)), path + [s]) == Some(Text(m.maskValue)))
  {
    assert MaskIn(m, Item, Object(fields)) == m.MaskValue(Object(fields));
    ClearPath(m, Item, Object(fields), path);
    var before := At(Object(fields), path);
    if before.Some? {
      HeadKept(m, ModeAt(Item, path), before.value);
    }
    forall s | Masks(m, ModeAt(Item, path), s) && At(Object(fields), path + [s]).Some?
      ensures At(m.MaskValue(Object(fields)), path + [s]) == Some(Text(m.maskValue))
    {
      MaskedKey(m, Item, Object(fields), path, s);
    }
  }

  /** One document masked from another: every position is as MaskingByPosition says. */
  ghost predicate MaskedByPosition(m: Masker, before: Json, after: Json) {
    && (forall path :: Clear(m, Item, path) ==>
          && (At(before, path).Some? <==> At(after, path).Some?)
          && (At(before, path).Some? ==> HeadOf(At(after, path).value) == HeadOf(At(before, path).value)))
    && (forall path, s :: Clear(m, Item, path) && Masks(m, ModeAt(Item, path), s) && At(before, path + [s]).Some? ==>
          At(after, path + [s]) == Some(Text(m.maskValue)))
  }

  /**
    What maskBody answers for every body: an object body is masked position by position, and a body that does
    not parse, or is no object, comes back as it was.
   */
  lemma BodyByPosition(m: Masker, body: Option<Json>)
    ensures var masked := MaskBody(m, body);
      if body.Some? && body.value.Object? then masked.Some? && MaskedByPosition(m, body.value, masked.value)
      else masked == body
  {
    if body.Some? && body.value.Object? {
      var before, after := body.value, MaskBody(m, body).value;
      forall path | Clear(m, Item, path)
        ensures At(before, path).Some? <==> At(after, path).Some?
        ensures At(before, path).Some? ==> HeadOf(At(after, path).value) == HeadOf(At(before, path).value)
      {
        MaskingByPosition(m, before.fields, path);
      }
      forall path, s | Clear(m, Item, path) && Masks(m, ModeAt(Item, path), s) && At(before, path + [s]).Some?
        ensures At(after, path + [s]) == Some(Text(m.maskValue))
      {
        MaskingByPosition(m, before.fields, path);
      }
    }
  }

  /**
    The fields of a body themselves: each sensitive key holds the mask value, each other key a value of the
    same kind, and what is neither object nor array is as it was.
   */
  lemma BodyFields(m: Masker, fields: map<string, Json>, key: string)
    ensures var masked := MaskBody(m, Some(Object(fields)));
      && masked.Some? && masked.value.Object? && masked.value.fields.Keys == fields.Keys
      && (key in fields && m.sensitive(key) ==> masked.value.fields[key] == Text(m.maskValue))
      && (key in fields && !m.sensitive(key) && !fields[key].Object? && !fields[key].Array? ==>
            masked.value.fields[key] == fields[key])
      && (key in fields && !m.sensitive(key) && fields[key].Object? ==>
            Some(masked.value.fields[key]) == MaskBody(m, Some(fields[key])))
      && (key in fields && !m.sensitive(key) && fields[key].Array? ==>
            masked.value.fields[key].Array? && |masked.value.fields[key].items| == |fields[key].items| &&
            forall i: nat :: i < |fields[key].items| ==>
              Some(masked.value.fields[key].items[i]) == MaskBody(m, Some(fields[key].items[i])))
  {
    if key in fields && !m.sensitive(key) {
      assert m.MaskValue(Object(fields)).fields[key] == m.MaskValue(fields[key]);
      assert fields[key].Array? ==> forall i: nat :: i < |fields[key].items| ==>
        m.MaskValue(fields[key]).items[i] == m.MaskItem(fields[key].items[i]);
    }
  }

  /** Masking twice is masking once. */
  lemma {:induction false} MaskValueTwice(m: Masker, j: Json)
    ensures m.MaskValue(m.MaskValue(j)) == m.MaskValue(j)
    ensures m.MaskItem(m.MaskItem(j)) == m.MaskItem(j)
    decreases j
  {
    match j
    case Object(fields) =>
      forall k | k in fields && !m.sensitive(k) ensures m.MaskValue(m.MaskValue(fields[k])) == m.MaskValue(fields[k]) {
        MaskValueTwice(m, fields[k]);
      }
      assert m.MaskValue(m.MaskValue(j)).fields == m.MaskValue(j).fields;
    case Array(items) =>
      forall i | 0 <= i < |items| ensures m.MaskItem(m.MaskItem(items[i])) == m.MaskItem(items[i]) {
        MaskValueTwice(m, items[i]);
      }
      assert m.MaskValue(m.MaskValue(j)).items == m.MaskValue(j).items;
    case _ =>
  }

  lemma MaskBodyTwice(m: Masker, body: Option<Json>)
    ensures MaskBody(m, MaskBody(m, body)) == MaskBody(m, body)
  {
    if body.Some? {
      MaskValueTwice(m, body.value);
    }
  }
}
