/** The interning table of the state memo, over a heap whose addresses are reused. */
module Identity {
  type Payload(==, !new, 0)

  /** An immutable Python object. `birth` is its identity: `is` compares objects, `id` reads the heap. */
  datatype Obj = Obj(birth: nat, body: Body)

  datatype Body =
    | Record(data: Payload)
    | TokenOf(data: Payload)
    | TickMap(items: map<int, int>)
    | V3(common: Common, fee: int)
    | Pancake(common: Common, fee: int, feeProtocol: int)
    | V4(common: Common, protocolFee: int, lpFee: int)
    | Plain(kind: Kind, record: Obj, fields: seq<Field>)

  /** The fields that the concentrated-liquidity states share. `PancakeV3State` is a subclass of the V3 state. */
  datatype Common = Common(
    record: Obj, sqrtPrice: int, tick: int, liquidity: int, spacing: int, token0: Obj, token1: Obj, bitmap: Obj,
    net: Obj, wordLo: int, wordHi: int, gas: int)

  /** Any other state dataclass: its class, and for each field but `record` whether it is a token. */
  datatype Kind = Kind(name: string, shape: seq<bool>)

  datatype Field = TokenField(token: Obj) | IntField(n: int) | DataField(data: Payload)

  predicate IsState(o: Obj) {
    match o.body
    case V3(c, _) => IsCommon(c)
    case Pancake(c, _, _) => IsCommon(c)
    case V4(c, _, _) => IsCommon(c)
    case Plain(kind, record, fields) =>
      record.body.Record? && |fields| == |kind.shape|
      && forall i :: 0 <= i < |fields| ==>
           (fields[i].TokenField? <==> kind.shape[i]) && (fields[i].TokenField? ==> fields[i].token.body.TokenOf?)
    case _ => false
  }

  predicate IsCommon(c: Common) {
    && c.record.body.Record? && c.token0.body.TokenOf? && c.token1.body.TokenOf?
    && c.bitmap.body.TickMap? && c.net.body.TickMap?
  }

  // ---------------------------------------------------------------- contents

  /** What a state is to a swap: everything but which mapping object holds the ticks. */
  datatype Content =
    | V3Content(common: CommonContent, fee: int)
    | PancakeContent(common: CommonContent, fee: int, feeProtocol: int)
    | V4Content(common: CommonContent, protocolFee: int, lpFee: int)
    | PlainContent(kind: Kind, record: Obj, fields: seq<Field>)

  datatype CommonContent = CommonContent(
    record: Obj, sqrtPrice: int, tick: int, liquidity: int, spacing: int, token0: Obj, token1: Obj,
    bitmap: map<int, int>, net: map<int, int>, wordLo: int, wordHi: int, gas: int)

  function CommonOf(c: Common): CommonContent
    requires IsCommon(c)
  {
    CommonContent(c.record, c.sqrtPrice, c.tick, c.liquidity, c.spacing, c.token0, c.token1, c.bitmap.body.items,
                  c.net.body.items, c.wordLo, c.wordHi, c.gas)
  }

  function ContentOf(o: Obj): Content
    requires IsState(o)
  {
    match o.body
    case V3(c, fee) => V3Content(CommonOf(c), fee)
    case Pancake(c, fee, feeProtocol) => PancakeContent(CommonOf(c), fee, feeProtocol)
    case V4(c, protocolFee, lpFee) => V4Content(CommonOf(c), protocolFee, lpFee)
    case Plain(kind, record, fields) => PlainContent(kind, record, fields)
  }

  /** What the key shows of a content: everything but the subclass's own field. */
  function Erased(c: Content): Content {
    match c
    case PancakeContent(common, fee, _) => PancakeContent(common, fee, 0)
    case _ => c
  }

  // ---------------------------------------------------------------- the heap

  /** The live objects and their addresses. */
  datatype World = World(at: map<Obj, int>)

  function Parts(o: Obj): set<Obj> {
    match o.body
    case V3(c, _) => {c.record, c.token0, c.token1, c.bitmap, c.net}
    case Pancake(c, _, _) => {c.record, c.token0, c.token1, c.bitmap, c.net}
    case V4(c, _, _) => {c.record, c.token0, c.token1, c.bitmap, c.net}
    case Plain(_, record, fields) => {record} + set f | f in fields && f.TokenField? :: f.token
    case _ => {}
  }

  /** Live objects have addresses of their own and keep what they refer to alive. */
  ghost predicate WellFormed(w: World) {
    && (forall o, p :: o in w.at && p in w.at && w.at[o] == w.at[p] ==> o == p)
    && (forall o :: o in w.at ==> Parts(o) <= w.at.Keys)
  }

  /** Any collection and allocation that spares `kept`: other objects may die and their addresses return. */
  ghost predicate Evolves(w: World, w': World, kept: set<Obj>) {
    && WellFormed(w')
    && (forall o :: o in w.at && o in w'.at ==> w'.at[o] == w.at[o])
    && kept <= w'.at.Keys
  }

  // ---------------------------------------------------------------- keys

  datatype Tag = V3Tag | PancakeTag | V4Tag | PlainTag(kind: Kind)

  /** An entry of a key tuple; an interned identity and a plain integer field are both just integers. */
  datatype Part = Type(tag: Tag) | Num(n: int) | Data(data: Payload)

  type StateKey = seq<Part>

  /** The table as a value: the retained objects, and the canonical object of each map content. */
  datatype Table = Table(objects: seq<Obj>, signatures: map<map<int, int>, nat>)

  ghost predicate WellFormedTable(t: Table) {
    && (forall i, j :: 0 <= i < j < |t.objects| ==> t.objects[i] != t.objects[j])
    && (forall m :: m in t.signatures ==>
      t.signatures[m] < |t.objects| && t.objects[t.signatures[m]].body == TickMap(m))
    && (forall i :: 0 <= i < |t.objects| && t.objects[i].body.TickMap? ==>
         t.objects[i].body.items in t.signatures && t.signatures[t.objects[i].body.items] == i)
  }

  function Index(objects: seq<Obj>, o: Obj): (i: nat)
    requires o in objects
    ensures i < |objects| && objects[i] == o
  {
    if objects[0] == o then 0 else Index(objects[1..], o) + 1
  }

  predicate KnowsCommon(t: Table, c: Common) {
    && IsCommon(c) && c.record in t.objects && c.token0 in t.objects && c.token1 in t.objects
    && c.bitmap.body.items in t.signatures && c.net.body.items in t.signatures
  }

  /** Every identity that the state's key mentions has been interned. */
  predicate Knows(t: Table, o: Obj) {
    IsState(o) &&
    match o.body
    case V3(c, _) => KnowsCommon(t, c)
    case Pancake(c, _, _) => KnowsCommon(t, c)
    case V4(c, _, _) => KnowsCommon(t, c)
    case Plain(_, record, fields) =>
      record in t.objects && forall f :: f in fields && f.TokenField? ==> f.token in t.objects
  }

  function CommonParts(t: Table, tag: Tag, c: Common): StateKey
    requires KnowsCommon(t, c)
  {
    [Type(tag), Num(Index(t.objects, c.record)), Num(c.sqrtPrice), Num(c.tick), Num(c.liquidity), Num(c.spacing),
     Num(Index(t.objects, c.token0)), Num(Index(t.objects, c.token1)), Num(t.signatures[c.bitmap.body.items]),
     Num(t.signatures[c.net.body.items]), Num(c.wordLo), Num(c.wordHi), Num(c.gas)]
  }

  function FieldParts(t: Table, fields: seq<Field>): (parts: StateKey)
    requires forall f :: f in fields && f.TokenField? ==> f.token in t.objects
    ensures |parts| == |fields|
    ensures forall i :: 0 <= i < |fields| ==> parts[i] == FieldPart(t, fields[i])
  {
    seq(|fields|, i requires 0 <= i < |fields| => FieldPart(t, fields[i]))
  }

  function FieldPart(t: Table, f: Field): Part
    requires f.TokenField? ==> f.token in t.objects
  {
    match f
    case TokenField(token) => Num(Index(t.objects, token))
    case IntField(n) => Num(n)
    case DataField(data) => Data(data)
  }

  /** `_state_key` over interned identities. Its first branch takes the subclass for a V3 state of another type. */
  function KeyFor(t: Table, o: Obj): StateKey
    requires Knows(t, o)
  {
    match o.body
    case V3(c, fee) => CommonParts(t, V3Tag, c) + [Num(fee)]
    case Pancake(c, fee, _) => CommonParts(t, PancakeTag, c) + [Num(fee)]
    case V4(c, protocolFee, lpFee) => CommonParts(t, V4Tag, c) + [Num(protocolFee), Num(lpFee)]
    case Plain(kind, record, fields) => [Type(PlainTag(kind)), Num(Index(t.objects, record))] + FieldParts(t, fields)
  }

  /** Equal keys, in one table, exactly for contents that are equal apart from the subclass's own field: same class,
      same record and token objects, same other scalars, and tick maps with the same entries. */
  lemma KeysAreErasedContents(t: Table, s: Obj, o: Obj)
    requires WellFormedTable(t) && Knows(t, s) && Knows(t, o)
    ensures KeyFor(t, s) == KeyFor(t, o) <==> Erased(ContentOf(s)) == Erased(ContentOf(o))
  {
    hide CommonParts, FieldParts, Index, CommonOf, KnowsCommon;
    var k, l := KeyFor(t, s), KeyFor(t, o);
    TagsLead(t, s);
    TagsLead(t, o);
    assert k == l ==> TagOf(s) == TagOf(o) by {
      if k == l {
        assert k[0] == l[0];
      }
    }
    match (s.body, o.body) {
      case (V3(c, fee), V3(d, fee')) =>
        CommonPartsDecide(t, V3Tag, c, d, [Num(fee)], [Num(fee')]);
      case (Pancake(c, fee, _), Pancake(d, fee', _)) =>
        CommonPartsDecide(t, PancakeTag, c, d, [Num(fee)], [Num(fee')]);
      case (V4(c, p, q), V4(d, p', q')) =>
        CommonPartsDecide(t, V4Tag, c, d, [Num(p), Num(q)], [Num(p'), Num(q')]);
      case (Plain(kind, record, fields), Plain(_, _, others)) =>
        if k == l {
          assert k[1] == l[1];
          FieldsDecide(t, kind, fields, others, k, l);
        }
      case _ =>
    }
  }

  /** Both are of the subclass and differ in its own field. */
  predicate Differ(c: Content, d: Content) {
    c.PancakeContent? && d.PancakeContent? && c.feeProtocol != d.feeProtocol
  }

  /** Equal keys mean equal contents exactly where the subclass's own field does not differ. */
  lemma KeysAreContents(t: Table, s: Obj, o: Obj)
    requires WellFormedTable(t) && Knows(t, s) && Knows(t, o)
    ensures ContentOf(s) == ContentOf(o) <==> KeyFor(t, s) == KeyFor(t, o) && !Differ(ContentOf(s), ContentOf(o))
  {
    hide KeyFor;
    KeysAreErasedContents(t, s, o);
  }

  /** Two states of the subclass on the same record, tokens and maps that differ in `feeProtocol` alone: one key, two
      contents, in every table that knows them. */
  lemma PancakesCollide(t: Table, c: Common, fee: int, x: int, y: int, s: Obj, o: Obj)
    requires WellFormedTable(t) && KnowsCommon(t, c) && x != y
    requires s.body == Pancake(c, fee, x) && o.body == Pancake(c, fee, y)
    ensures Knows(t, s) && Knows(t, o) && KeyFor(t, s) == KeyFor(t, o) && ContentOf(s) != ContentOf(o)
  {
    KeysAreErasedContents(t, s, o);
  }

  function TagOf(o: Obj): Tag
    requires IsState(o)
  {
    match o.body
    case V3(_, _) => V3Tag
    case Pancake(_, _, _) => PancakeTag
    case V4(_, _, _) => V4Tag
    case Plain(kind, _, _) => PlainTag(kind)
  }

  lemma TagsLead(t: Table, o: Obj)
    requires Knows(t, o)
    ensures |KeyFor(t, o)| > 0 && KeyFor(t, o)[0] == Type(TagOf(o))
  {
  }

  lemma CommonPartsDecide(t: Table, tag: Tag, c: Common, d: Common, x: StateKey, y: StateKey)
    requires WellFormedTable(t) && KnowsCommon(t, c) && KnowsCommon(t, d) && |x| == |y|
    ensures CommonParts(t, tag, c) + x == CommonParts(t, tag, d) + y <==> CommonOf(c) == CommonOf(d) && x == y
  {
    var a, b := CommonParts(t, tag, c), CommonParts(t, tag, d);
    if a + x == b + y {
      assert a == (a + x)[..13] && b == (b + y)[..13] && x == (a + x)[13..] && y == (b + y)[13..];
      assert a[1] == b[1] && a[2] == b[2] && a[3] == b[3] && a[4] == b[4] && a[5] == b[5] && a[6] == b[6];
      assert a[7] == b[7] && a[8] == b[8] && a[9] == b[9] && a[10] == b[10] && a[11] == b[11] && a[12] == b[12];
    }
  }

  lemma FieldsDecide(t: Table, kind: Kind, fields: seq<Field>, others: seq<Field>, k: StateKey, l: StateKey)
    requires |fields| == |others| == |kind.shape| && k == l && |k| == |fields| + 2
    requires forall i :: 0 <= i < |fields| ==>
      (fields[i].TokenField? <==> kind.shape[i]) && (others[i].TokenField? <==> kind.shape[i])
    requires forall f :: f in fields && f.TokenField? ==> f.token in t.objects
    requires forall f :: f in others && f.TokenField? ==> f.token in t.objects
    requires k[2..] == FieldParts(t, fields) && l[2..] == FieldParts(t, others)
    ensures fields == others
  {
    forall i | 0 <= i < |fields|
      ensures fields[i] == others[i]
    {
      assert k[2..][i] == l[2..][i];
      assert fields[i] in fields && others[i] in others;
    }
  }

  // ---------------------------------------------------------------- growth

  ghost predicate Grows(t: Table, t': Table) {
    && t.objects <= t'.objects
    && (forall m :: m in t.signatures ==> m in t'.signatures && t'.signatures[m] == t.signatures[m])
  }

  lemma {:induction false} IndexIsStable(objects: seq<Obj>, more: seq<Obj>, o: Obj)
    requires o in objects && objects <= more
    ensures o in more && Index(more, o) == Index(objects, o)
    decreases |objects|
  {
    assert more == objects + more[|objects|..];
    if objects[0] != o {
      IndexIsStable(objects[1..], more[1..], o);
    }
  }

  /** A key once issued stays the state's key, whatever is interned later. */
  lemma KeyIsStable(t: Table, t': Table, o: Obj)
    requires Grows(t, t') && Knows(t, o)
    ensures Knows(t', o) && KeyFor(t', o) == KeyFor(t, o)
  {
    hide Index;
    forall p | p in t.objects
      ensures p in t'.objects && Index(t'.objects, p) == Index(t.objects, p)
    {
      IndexIsStable(t.objects, t'.objects, p);
    }
    if o.body.Plain? {
      var fields := o.body.fields;
      forall i | 0 <= i < |fields|
        ensures fields[i].TokenField? ==> fields[i].token in t'.objects
        ensures fields[i].TokenField? ==> Index(t'.objects, fields[i].token) == Index(t.objects, fields[i].token)
      {
        assert fields[i] in fields;
      }
      assert FieldParts(t', fields) == FieldParts(t, fields);
    }
  }

  // ---------------------------------------------------------------- addresses

  ghost predicate Addressed(objects: seq<Obj>, byObjectId: map<int, nat>, w: World) {
    && (forall i :: 0 <= i < |objects| ==>
         objects[i] in w.at && w.at[objects[i]] in byObjectId && byObjectId[w.at[objects[i]]] == i)
    && (forall a :: a in byObjectId ==>
         byObjectId[a] < |objects| && objects[byObjectId[a]] in w.at && w.at[objects[byObjectId[a]]] == a)
  }

  /** Looking up a live object's address finds that object or nothing. */
  lemma AddressedLookup(objects: seq<Obj>, byObjectId: map<int, nat>, w: World, value: Obj)
    requires Addressed(objects, byObjectId, w) && WellFormed(w) && value in w.at
    ensures w.at[value] in byObjectId <==> value in objects
    ensures w.at[value] in byObjectId ==>
      byObjectId[w.at[value]] < |objects| && objects[byObjectId[w.at[value]]] == value
  {
    var a := w.at[value];
    if a in byObjectId {
      assert w.at[objects[byObjectId[a]]] == a;
    }
  }

  lemma AddressedAppend(objects: seq<Obj>, byObjectId: map<int, nat>, w: World, value: Obj)
    requires Addressed(objects, byObjectId, w) && WellFormed(w) && value in w.at && value !in objects
    ensures Addressed(objects + [value], byObjectId[w.at[value] := |objects|], w)
  {
    var a, more := w.at[value], objects + [value];
    forall i | 0 <= i < |objects|
      ensures more[i] == objects[i] && w.at[objects[i]] != a
    {
      assert objects[i] in objects;
    }
  }

  lemma TableAppend(t: Table, value: Obj)
    requires WellFormedTable(t) && value !in t.objects
    ensures !value.body.TickMap? ==> WellFormedTable(Table(t.objects + [value], t.signatures))
    ensures value.body.TickMap? && value.body.items !in t.signatures ==>
      WellFormedTable(Table(t.objects + [value], t.signatures[value.body.items := |t.objects|]))
  {
    forall i | 0 <= i < |t.objects|
      ensures (t.objects + [value])[i] == t.objects[i] != value
    {
      assert t.objects[i] in t.objects;
    }
  }

  lemma MapIsSigned(t: Table, i: nat)
    requires WellFormedTable(t) && i < |t.objects| && t.objects[i].body.TickMap?
    ensures t.objects[i].body.items in t.signatures && t.signatures[t.objects[i].body.items] == i
  {
  }

  lemma SignatureIsMap(t: Table, items: map<int, int>)
    requires WellFormedTable(t) && items in t.signatures
    ensures t.signatures[items] < |t.objects| && t.objects[t.signatures[items]].body == TickMap(items)
  {
  }

  // ---------------------------------------------------------------- the table object

  /** `_Identities`: it retains what it interns, so those addresses cannot be reused. */
  class Identities {
    const limit: int
    var objects: seq<Obj>
    var byObjectId: map<int, nat>
    var signatures: map<map<int, int>, nat>
    var stateKeys: map<int, (Obj, StateKey)>
    ghost var issued: map<Obj, StateKey>

    constructor (limit: int)
      ensures this.limit == limit && objects == [] && byObjectId == map[] && signatures == map[] && stateKeys == map[]
      ensures issued == map[]
    {
      this.limit := limit;
      objects, byObjectId, signatures, stateKeys, issued := [], map[], map[], map[], map[];
    }

    ghost function Now(): Table
      reads this
    {
      Table(objects, signatures)
    }

    /** What the scope keeps alive. */
    function Retained(): set<Obj>
      reads this
    {
      (set o | o in objects) + set a | a in stateKeys :: stateKeys[a].0
    }

    /** The address table names exactly the retained objects, and the signatures the canonical maps. */
    ghost predicate Interned(w: World)
      reads this
    {
      WellFormed(w) && WellFormedTable(Now()) && Addressed(objects, byObjectId, w)
    }

    /** Cached states are alive at their addresses, and every key ever issued is still its state's key. */
    ghost predicate Valid(w: World)
      reads this
    {
      && Interned(w)
      && (forall a :: a in stateKeys ==>
           stateKeys[a].0 in w.at && w.at[stateKeys[a].0] == a
           && stateKeys[a].0 in issued && issued[stateKeys[a].0] == stateKeys[a].1)
      && (forall s :: s in issued ==> Knows(Now(), s) && issued[s] == KeyFor(Now(), s))
    }

    /** The table stays valid through any collection that spares what it retains. */
    lemma SurvivesCollection(w: World, w': World)
      requires Valid(w) && Evolves(w, w', Retained())
      ensures Valid(w')
    {
      forall i | 0 <= i < |objects|
        ensures objects[i] in w'.at && w'.at[objects[i]] == w.at[objects[i]]
      {
        assert objects[i] in Retained();
      }
      forall a | a in stateKeys
        ensures stateKeys[a].0 in w'.at && w'.at[stateKeys[a].0] == a
      {
        assert stateKeys[a].0 in Retained();
      }
    }

    /** Any two states ever keyed, dead or alive, cached or not, have equal keys exactly for equal contents, apart from
        the subclass's own field. */
    lemma IssuedKeysAreContents(w: World, s: Obj, o: Obj)
      requires Valid(w) && s in issued && o in issued
      ensures IsState(s) && IsState(o)
      ensures issued[s] == issued[o] <==> Erased(ContentOf(s)) == Erased(ContentOf(o))
      ensures ContentOf(s) == ContentOf(o) <==> issued[s] == issued[o] && !Differ(ContentOf(s), ContentOf(o))
    {
      hide KeyFor;
      KeysAreErasedContents(Now(), s, o);
    }

    /** `object`: the retained index of a live object. */
    method Intern(w: World, value: Obj) returns (known: nat)
      requires WellFormed(w) && Addressed(objects, byObjectId, w) && value in w.at
      modifies this`objects, this`byObjectId
      ensures Addressed(objects, byObjectId, w)
      ensures known < |objects| && objects[known] == value
      ensures objects == if value in old(objects) then old(objects) else old(objects) + [value]
      ensures value !in old(objects) ==> known == |old(objects)|
    {
      hide Addressed, WellFormed;
      AddressedLookup(objects, byObjectId, w, value);
      if w.at[value] in byObjectId {
        known := byObjectId[w.at[value]];
        assert objects[known] == value;
        return;
      }
      AddressedAppend(objects, byObjectId, w, value);
      known := |objects|;
      objects := objects + [value];
      byObjectId := byObjectId[w.at[value] := known];
    }

    /** `object` on records and tokens, with the growth of the table. */
    method InternObject(w: World, value: Obj) returns (known: nat)
      requires Interned(w) && value in w.at && !value.body.TickMap?
      modifies this`objects, this`byObjectId
      ensures Interned(w) && Grows(old(Now()), Now()) && value in objects
      ensures known < |objects| && objects[known] == value
    {
      hide Addressed, WellFormed, WellFormedTable;
      if value !in objects {
        TableAppend(Now(), value);
      }
      known := Intern(w, value);
    }

    /** `tick_map`: the index of the canonical object with these entries. */
    method InternMap(w: World, value: Obj) returns (known: nat)
      requires Interned(w) && value in w.at && value.body.TickMap?
      modifies this`objects, this`byObjectId, this`signatures
      ensures Interned(w) && Grows(old(Now()), Now())
      ensures value.body.items in signatures && known == signatures[value.body.items]
      ensures known < |objects| && objects[known].body == value.body
    {
      hide Addressed, WellFormed, WellFormedTable;
      AddressedLookup(objects, byObjectId, w, value);
      if w.at[value] in byObjectId && objects[byObjectId[w.at[value]]] == value {
        known := byObjectId[w.at[value]];
        MapIsSigned(Now(), known);
        return;
      }
      if value.body.items in signatures {
        known := signatures[value.body.items];
        SignatureIsMap(Now(), value.body.items);
        return;
      }
      TableAppend(Now(), value);
      known := Intern(w, value);
      signatures := signatures[value.body.items := known];
    }

    /** `canonical_map`: a retained map with the same entries. */
    method CanonicalMap(w: World, value: Obj) returns (canonical: Obj)
      requires Interned(w) && value in w.at && value.body.TickMap?
      modifies this`objects, this`byObjectId, this`signatures
      ensures Interned(w) && Grows(old(Now()), Now())
      ensures canonical.body == value.body && canonical in objects
    {
      hide Interned;
      var key := InternMap(w, value);
      canonical := objects[key];
    }

    /** The patched `_freeze`; `copied` is the proxy that the original freezer would build from `values`. */
    method Freeze(w: World, values: Obj, copied: Obj) returns (frozen: Obj)
      requires Interned(w) && values in w.at && copied in w.at && values.body.TickMap? && copied.body == values.body
      modifies this`objects, this`byObjectId, this`signatures
      ensures Interned(w) && Grows(old(Now()), Now())
      ensures frozen.body == values.body && frozen in objects
    {
      hide WellFormed, WellFormedTable, Addressed;
      AddressedLookup(objects, byObjectId, w, values);
      if w.at[values] in byObjectId && objects[byObjectId[w.at[values]]] == values {
        frozen := CanonicalMap(w, values);
      } else {
        frozen := CanonicalMap(w, copied);
      }
    }

    /** The part of the key that V3 and V4 states share. */
    method CommonKey(w: World, tag: Tag, c: Common) returns (parts: StateKey)
      requires Interned(w) && IsCommon(c) && {c.record, c.token0, c.token1, c.bitmap, c.net} <= w.at.Keys
      modifies this`objects, this`byObjectId, this`signatures
      ensures Interned(w) && Grows(old(Now()), Now())
      ensures KnowsCommon(Now(), c) && parts == CommonParts(Now(), tag, c)
    {
      hide Index, Interned;
      ghost var t0 := Now();
      var record := InternObject(w, c.record);
      var token0 := InternObject(w, c.token0);
      var token1 := InternObject(w, c.token1);
      var bitmap := InternMap(w, c.bitmap);
      var net := InternMap(w, c.net);
      parts := [Type(tag), Num(record), Num(c.sqrtPrice), Num(c.tick), Num(c.liquidity), Num(c.spacing), Num(token0),
                Num(token1), Num(bitmap), Num(net), Num(c.wordLo), Num(c.wordHi), Num(c.gas)];
      TheIndex(w, c.record, record);
      TheIndex(w, c.token0, token0);
      TheIndex(w, c.token1, token1);
    }

    lemma TheIndex(w: World, o: Obj, i: nat)
      requires Interned(w) && i < |objects| && objects[i] == o
      ensures o in objects && Index(objects, o) == i
    {
      hide Addressed, WellFormed;
    }

    /** The key of any other state: its record, then its fields in order. */
    method PlainKey(w: World, kind: Kind, record: Obj, fields: seq<Field>) returns (parts: StateKey)
      requires Interned(w) && record in w.at && record.body.Record?
      requires forall f :: f in fields && f.TokenField? ==> f.token in w.at && f.token.body.TokenOf?
      modifies this`objects, this`byObjectId
      ensures Interned(w) && Grows(old(Now()), Now())
      ensures record in objects && (forall f :: f in fields && f.TokenField? ==> f.token in objects)
      ensures parts == [Type(PlainTag(kind)), Num(Index(objects, record))] + FieldParts(Now(), fields)
    {
      hide Index, Interned;
      var known := InternObject(w, record);
      TheIndex(w, record, known);
      parts := [Type(PlainTag(kind)), Num(known)];
      var i := 0;
      while i < |fields|
        invariant 0 <= i <= |fields|
        invariant Interned(w) && Grows(old(Now()), Now()) && record in objects
        invariant |parts| == i + 2 && parts[0] == Type(PlainTag(kind)) && parts[1] == Num(Index(objects, record))
        invariant forall j :: 0 <= j < i ==>
          (fields[j].TokenField? ==> fields[j].token in objects) && parts[j + 2] == FieldPart(Now(), fields[j])
      {
        assert fields[i] in fields;
        ghost var before := Now();
        if fields[i].TokenField? {
          known := InternObject(w, fields[i].token);
          TheIndex(w, fields[i].token, known);
        }
        forall o | o in before.objects
          ensures o in objects && Index(objects, o) == Index(before.objects, o)
        {
          IndexIsStable(before.objects, objects, o);
        }
        var part :=
          match fields[i] case TokenField(_) => Num(known) case IntField(n) => Num(n) case DataField(d) => Data(d);
        parts := parts + [part];
        i := i + 1;
      }
    }

    /** `_state_key` on a live state. */
    method ComputeKey(w: World, state: Obj) returns (key: StateKey)
      requires Interned(w) && state in w.at && IsState(state)
      modifies this`objects, this`byObjectId, this`signatures
      ensures Interned(w) && Grows(old(Now()), Now())
      ensures Knows(Now(), state) && key == KeyFor(Now(), state)
    {
      hide CommonParts, FieldParts, Index, WellFormedTable, Addressed;
      assert Parts(state) <= w.at.Keys;
      match state.body {
        case V3(c, fee) =>
          key := CommonKey(w, V3Tag, c);
          key := key + [Num(fee)];
        case Pancake(c, fee, _) =>
          key := CommonKey(w, PancakeTag, c);
          key := key + [Num(fee)];
        case V4(c, protocolFee, lpFee) =>
          key := CommonKey(w, V4Tag, c);
          key := key + [Num(protocolFee), Num(lpFee)];
        case Plain(kind, record, fields) =>
          forall f | f in fields && f.TokenField?
            ensures f.token in w.at && f.token.body.TokenOf?
          {
            assert f.token in Parts(state);
          }
          key := PlainKey(w, kind, record, fields);
      }
    }

    /** `state_key`, with its cache of recent states that is cleared when full. */
    method KeyOfState(w: World, state: Obj) returns (key: StateKey)
      requires Valid(w) && state in w.at && IsState(state)
      modifies this
      ensures Valid(w)
      ensures state in issued && issued[state] == key
      ensures forall s :: s in old(issued) ==> s in issued && issued[s] == old(issued)[s]
    {
      hide KeyFor, Knows, IsState, WellFormedTable, Addressed, WellFormed, Grows, Parts;
      var a := w.at[state];
      if a in stateKeys && stateKeys[a].0 == state {
        return stateKeys[a].1;
      }
      if |stateKeys| == limit {
        stateKeys := map[];
      }
      ghost var before := Now();
      key := ComputeKey(w, state);
      forall s | s in issued
        ensures Knows(Now(), s) && KeyFor(Now(), s) == issued[s]
      {
        KeyIsStable(before, Now(), s);
      }
      stateKeys := stateKeys[a := (state, key)];
      issued := issued[state := key];
    }

    /** While the original swap builds the successor of a state, the patched `_freeze` sees the state's own tick
        maps. It returns retained maps with their entries; their entries are interned already, so the copy that
        it may make of them is not kept. */
    method FreezeMaps(w: World, state: Obj) returns (bitmap: Obj, net: Obj)
      requires Valid(w) && state in w.at && IsState(state) && !state.body.Plain?
      modifies this`objects, this`byObjectId, this`signatures
      ensures Valid(w)
      ensures bitmap.body == state.body.common.bitmap.body && net.body == state.body.common.net.body
      ensures bitmap in objects && net in objects
    {
      hide KeyFor, Knows, WellFormedTable, Addressed;
      assert Parts(state) <= w.at.Keys;
      var c := state.body.common;
      ghost var before := Now();
      bitmap := Freeze(w, c.bitmap, c.bitmap);
      net := Freeze(w, c.net, c.net);
      forall s | s in issued
        ensures Knows(Now(), s) && KeyFor(Now(), s) == issued[s]
      {
        KeyIsStable(before, Now(), s);
      }
    }

    /** Entering the scope interns the record and tick maps of a prepared state. */
    method Admit(w: World, state: Obj)
      requires Valid(w) && state in w.at && IsState(state)
      modifies this`objects, this`byObjectId, this`signatures
      ensures Valid(w)
    {
      hide KeyFor, Knows, WellFormedTable, Addressed;
      assert Parts(state) <= w.at.Keys;
      ghost var before := Now();
      match state.body {
        case Plain(_, record, _) =>
          var known := InternObject(w, record);
        case V3(c, _) =>
          AdmitCommon(w, c);
        case Pancake(c, _, _) =>
          AdmitCommon(w, c);
        case V4(c, _, _) =>
          AdmitCommon(w, c);
      }
      forall s | s in issued
        ensures Knows(Now(), s) && KeyFor(Now(), s) == issued[s]
      {
        KeyIsStable(before, Now(), s);
      }
    }

    method AdmitCommon(w: World, c: Common)
      requires Interned(w) && IsCommon(c) && {c.record, c.bitmap, c.net} <= w.at.Keys
      modifies this`objects, this`byObjectId, this`signatures
      ensures Interned(w) && Grows(old(Now()), Now())
    {
      hide Interned;
      var known := InternObject(w, c.record);
      known := InternMap(w, c.bitmap);
      known := InternMap(w, c.net);
    }
  }
}
