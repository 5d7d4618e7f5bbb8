/** Message components and their JSON: trees of Go structs out, and back in by the number under "type". */
module Components {
  import opened Wrappers

  datatype Json =
    | Null
    | Flag(b: bool)
    | Num(n: int)
    | Text(s: string)
    | Arr(elems: seq<Json>)
    | Obj(m: map<string, Json>)

  const ACTIONS_ROW := 1
  const BUTTON := 2
  const SELECT_MENU := 3
  const TEXT_INPUT := 4
  const USER_SELECT := 5
  const ROLE_SELECT := 6
  const MENTIONABLE_SELECT := 7
  const CHANNEL_SELECT := 8
  const SECTION := 9
  const TEXT_DISPLAY := 10
  const THUMBNAIL := 11
  const MEDIA_GALLERY := 12
  const FILE := 13
  const SEPARATOR := 14
  const CONTAINER := 17
  const LABEL := 18
  const FILE_UPLOAD := 19

  predicate IsSelect(t: int) {
    t == SELECT_MENU || t == USER_SELECT || t == ROLE_SELECT || t == MENTIONABLE_SELECT || t == CHANNEL_SELECT
  }

  /** The kinds without children or special fields. */
  predicate IsPlain(t: int) {
    || t == TEXT_INPUT || t == TEXT_DISPLAY || t == THUMBNAIL || t == MEDIA_GALLERY || t == FILE || t == SEPARATOR
    || t == FILE_UPLOAD
  }

  predicate IsKnown(t: int) {
    || t == ACTIONS_ROW || t == BUTTON || IsSelect(t) || t == SECTION || t == CONTAINER || t == LABEL || IsPlain(t)
  }

  /** The Go type of a struct field, as far as its JSON form depends on it. */
  datatype Kind = Str | Int | Nat | Bool | PtrStr | PtrInt | PtrNat | PtrBool | PtrObj | List | Media

  datatype Spec = Spec(kind: Kind, omitEmpty: bool)

  type Schema = map<string, Spec>

  const ID := Spec(Int, true)

  /** The struct fields of each component type apart from those the code treats specially. */
  function SchemaOf(t: int): Schema {
    if t == BUTTON then
      map["label" := Spec(Str, false), "disabled" := Spec(Bool, false), "emoji" := Spec(PtrObj, true),
          "url" := Spec(Str, true), "custom_id" := Spec(Str, true), "sku_id" := Spec(Str, true), "id" := ID]
    else if IsSelect(t) then
      map["custom_id" := Spec(Str, true), "placeholder" := Spec(Str, false), "min_values" := Spec(PtrInt, true),
          "max_values" := Spec(Int, true), "default_values" := Spec(List, true), "options" := Spec(List, true),
          "disabled" := Spec(Bool, false), "required" := Spec(PtrBool, true), "channel_types" := Spec(List, true),
          "id" := ID, "values" := Spec(List, true)]
    else if t == TEXT_INPUT then
      map["custom_id" := Spec(Str, false), "label" := Spec(Str, true), "style" := Spec(Nat, false),
          "placeholder" := Spec(Str, true), "value" := Spec(Str, true), "required" := Spec(PtrBool, true),
          "min_length" := Spec(Int, true), "max_length" := Spec(Int, true), "id" := ID]
    else if t == TEXT_DISPLAY then map["content" := Spec(Str, false)]
    else if t == THUMBNAIL then
      map["id" := ID, "media" := Spec(Media, false), "description" := Spec(PtrStr, true), "spoiler" := Spec(Bool, true)]
    else if t == MEDIA_GALLERY then map["id" := ID, "items" := Spec(List, false)]
    else if t == FILE then map["id" := ID, "file" := Spec(Media, false), "spoiler" := Spec(Bool, false)]
    else if t == SEPARATOR then
      map["id" := ID, "divider" := Spec(PtrBool, true), "spacing" := Spec(PtrNat, true)]
    else if t == CONTAINER then
      map["id" := ID, "accent_color" := Spec(PtrInt, true), "spoiler" := Spec(Bool, false)]
    else if t == LABEL then map["id" := ID, "label" := Spec(Str, false), "description" := Spec(Str, true)]
    else if t == FILE_UPLOAD then
      map["id" := ID, "custom_id" := Spec(Str, true), "min_values" := Spec(PtrInt, true),
          "max_values" := Spec(Int, true), "required" := Spec(PtrBool, true), "values" := Spec(List, true)]
    else map["id" := ID]
  }

  /** The values a field of this kind takes: JSON null stands for a nil pointer or slice. */
  predicate Fits(k: Kind, v: Json) {
    match k
    case Str => v.Text?
    case Int => v.Num?
    case Nat => v.Num? && v.n >= 0
    case Bool => v.Flag?
    case PtrStr => v.Null? || v.Text?
    case PtrInt => v.Null? || v.Num?
    case PtrNat => v.Null? || (v.Num? && v.n >= 0)
    case PtrBool => v.Null? || v.Flag?
    case PtrObj => v.Null? || v.Obj?
    case List => v.Null? || v.Arr?
    case Media => v.Obj?
  }

  function Zero(k: Kind): (v: Json)
    ensures Fits(k, v)
  {
    match k
    case Str => Text("")
    case Int => Num(0)
    case Nat => Num(0)
    case Bool => Flag(false)
    case Media => Obj(map["url" := Text("")])
    case _ => Null
  }

  /** What omitempty leaves out: the zero value, and of a slice also an empty one. A struct is never left out. */
  predicate IsEmpty(k: Kind, v: Json) {
    k != Media && (v == Zero(k) || (k == List && v == Arr([])))
  }

  type Attrs = map<string, Json>

  predicate Typed(s: Schema, a: Attrs) {
    a.Keys == s.Keys && forall k <- s :: Fits(s[k].kind, a[k])
  }

  predicate Omitted(s: Spec, v: Json) {
    s.omitEmpty && IsEmpty(s.kind, v)
  }

  function EncodeAttrs(s: Schema, a: Attrs): map<string, Json>
    requires Typed(s, a)
  {
    map k | k in s && !Omitted(s[k], a[k]) :: a[k]
  }

  /** json.Unmarshal of one field: a missing or null value leaves the zero value. */
  function DecodeField(s: Spec, m: map<string, Json>, k: string): Json {
    if k in m && m[k] != Null then m[k] else Zero(s.kind)
  }

  function DecodeAttrs(s: Schema, m: map<string, Json>): Option<Attrs> {
    if forall k <- s :: Fits(s[k].kind, DecodeField(s[k], m, k))
    then Some(map k | k in s :: DecodeField(s[k], m, k)) else None
  }

  /** A field after one trip: an empty slice under omitempty comes back nil. */
  function NormalField(s: Spec, v: Json): Json {
    if Omitted(s, v) then Zero(s.kind) else v
  }

  function NormalAttrs(s: Schema, a: Attrs): (n: Attrs)
    requires Typed(s, a)
    ensures Typed(s, n)
  {
    map k | k in s :: NormalField(s[k], a[k])
  }

  /** Struct fields survive, whatever special keys stand beside them. */
  lemma AttrsRoundTrip(s: Schema, a: Attrs, m: map<string, Json>)
    requires Typed(s, a)
    requires var e := EncodeAttrs(s, a); forall k <- s :: (k in m <==> k in e) && (k in m ==> m[k] == e[k])
    ensures DecodeAttrs(s, m) == Some(NormalAttrs(s, a))
  {
    forall k <- s
      ensures DecodeField(s[k], m, k) == NormalField(s[k], a[k]) && Fits(s[k].kind, DecodeField(s[k], m, k))
    {
      assert Fits(s[k].kind, a[k]);
      assert k in EncodeAttrs(s, a) <==> !Omitted(s[k], a[k]);
    }
    assert DecodeAttrs(s, m).value == NormalAttrs(s, a);
  }

  lemma NormalAttrsIdempotent(s: Schema, a: Attrs)
    requires Typed(s, a)
    ensures NormalAttrs(s, NormalAttrs(s, a)) == NormalAttrs(s, a)
  {
  }

  /** A component; Nil is the nil interface value. */
  datatype Component =
    | Nil
    | ActionsRow(attrs: Attrs, children: Slice<Component>)
    | Button(style: nat, attrs: Attrs)
    | SelectMenu(menuType: nat, attrs: Attrs)
    | Section(attrs: Attrs, children: Slice<Component>, accessory: Component)
    | Container(attrs: Attrs, children: Slice<Component>)
    | Label(attrs: Attrs, inner: Component)
    | Plain(t: int, attrs: Attrs)

  /** Type(), of anything but a nil component. */
  function TypeOf(c: Component): int {
    match c
    case Nil => 0
    case ActionsRow(_, _) => ACTIONS_ROW
    case Button(_, _) => BUTTON
    case SelectMenu(menuType, _) => if menuType != 0 then menuType else SELECT_MENU
    case Section(_, _, _) => SECTION
    case Container(_, _) => CONTAINER
    case Label(_, _) => LABEL
    case Plain(t, _) => t
  }

  /** Every struct holds values of its fields' types, and the type constants are used as such. */
  predicate WellTyped(c: Component) {
    match c
    case Nil => true
    case ActionsRow(a, cs) => Typed(SchemaOf(ACTIONS_ROW), a) && forall x <- cs.Items() :: WellTyped(x)
    case Button(_, a) => Typed(SchemaOf(BUTTON), a)
    case SelectMenu(t, a) => (t == 0 || IsSelect(t)) && Typed(SchemaOf(SELECT_MENU), a)
    case Section(a, cs, x) =>
      Typed(SchemaOf(SECTION), a) && (forall x <- cs.Items() :: WellTyped(x)) && WellTyped(x)
    case Container(a, cs) => Typed(SchemaOf(CONTAINER), a) && forall x <- cs.Items() :: WellTyped(x)
    case Label(a, x) => Typed(SchemaOf(LABEL), a) && WellTyped(x)
    case Plain(t, a) => IsPlain(t) && Typed(SchemaOf(t), a)
  }

  /** MarshalJSON of a component that stands somewhere in a tree. */
  function Marshal(c: Component): Json
    requires WellTyped(c)
    decreases c, 1
  {
    match c
    case Nil => Null
    case ActionsRow(a, cs) =>
      Obj(EncodeAttrs(SchemaOf(ACTIONS_ROW), a)["components" := MarshalSlice(cs)]["type" := Num(ACTIONS_ROW)])
    case Button(style, a) =>
      Obj(EncodeAttrs(SchemaOf(BUTTON), a)["style" := Num(if style == 0 then 1 else style)]["type" := Num(BUTTON)])
    case SelectMenu(t, a) => Obj(EncodeAttrs(SchemaOf(SELECT_MENU), a)["type" := Num(TypeOf(c))])
    case Section(a, cs, x) =>
      Obj(EncodeAttrs(SchemaOf(SECTION), a)["components" := MarshalSlice(cs)]["accessory" := Marshal(x)]
        ["type" := Num(SECTION)])
    case Container(a, cs) =>
      Obj(EncodeAttrs(SchemaOf(CONTAINER), a)["components" := MarshalSlice(cs)]["type" := Num(CONTAINER)])
    case Label(a, x) => Obj(EncodeAttrs(SchemaOf(LABEL), a)["component" := Marshal(x)]["type" := Num(LABEL)])
    case Plain(t, a) => Obj(EncodeAttrs(SchemaOf(t), a)["type" := Num(t)])
  }

  function MarshalSlice(cs: Slice<Component>): Json
    requires forall x <- cs.Items() :: WellTyped(x)
    decreases cs, 1
  {
    match cs
    case NilSlice => Null
    case Slice(elems) => Arr(MarshalAll(elems))
  }

  function MarshalAll(cs: seq<Component>): (r: seq<Json>)
    requires forall x <- cs :: WellTyped(x)
    ensures |r| == |cs|
    decreases cs, 0
  {
    if cs == [] then [] else [Marshal(cs[0])] + MarshalAll(cs[1..])
  }

  /** The number under "type" as json.Unmarshal reads it into an unsigned field; null and nothing leave 0. */
  function TypeNumber(j: Json): Option<int> {
    match j
    case Null => Some(0)
    case Obj(m) =>
      if "type" !in m || m["type"] == Null then Some(0)
      else if m["type"].Num? && m["type"].n >= 0 then Some(m["type"].n)
      else None
    case _ => None
  }

  /** unmarshalableMessageComponent.UnmarshalJSON. */
  function Unmarshal(j: Json): Option<Component>
    decreases j, 1
  {
    if TypeNumber(j).None? || !IsKnown(TypeNumber(j).value) then None
    else
      var t := TypeNumber(j).value;
      var attrs := DecodeAttrs(SchemaOf(t), j.m);
      if attrs.None? then None
      else if t == ACTIONS_ROW || t == CONTAINER then
        match UnmarshalChildren(j)
        case None => None
        case Some(cs) =>
          Some(if t == ACTIONS_ROW then ActionsRow(attrs.value, Slice(cs)) else Container(attrs.value, Slice(cs)))
      else if t == SECTION then
        match (UnmarshalChildren(j), UnmarshalInner(j, "accessory"))
        case (Some(cs), Some(x)) => Some(Section(attrs.value, Slice(cs), x))
        case _ => None
      else if t == LABEL then
        match UnmarshalInner(j, "component")
        case None => None
        case Some(x) => Some(Label(attrs.value, x))
      else if t == BUTTON then
        if Fits(Nat, DecodeField(Spec(Nat, false), j.m, "style"))
        then Some(Button(DecodeField(Spec(Nat, false), j.m, "style").n, attrs.value)) else None
      else if IsSelect(t) then Some(SelectMenu(t, attrs.value))
      else Some(Plain(t, attrs.value))
  }

  /** The RawComponents of a layout component: a missing or null list is empty. */
  function UnmarshalChildren(j: Json): Option<seq<Component>>
    requires j.Obj?
    decreases j, 0
  {
    if "components" !in j.m || j.m["components"] == Null then Some([])
    else if !j.m["components"].Arr? then None
    else UnmarshalAll(j.m["components"].elems)
  }

  /** The one component under a key; a missing key leaves a nil component. */
  function UnmarshalInner(j: Json, key: string): Option<Component>
    requires j.Obj?
    decreases j, 0
  {
    if key !in j.m then Some(Nil) else Unmarshal(j.m[key])
  }

  function UnmarshalAll(js: seq<Json>): Option<seq<Component>>
    decreases js, 0
  {
    if js == [] then Some([])
    else
      match (Unmarshal(js[0]), UnmarshalAll(js[1..]))
      case (Some(c), Some(cs)) => Some([c] + cs)
      case _ => None
  }

  /** A tree after one trip: styles and menu types explicit, nil lists of children empty. */
  function Normal(c: Component): (n: Component)
    requires WellTyped(c)
    decreases c, 1
  {
    match c
    case Nil => Nil
    case ActionsRow(a, cs) => ActionsRow(NormalAttrs(SchemaOf(ACTIONS_ROW), a), Slice(NormalChildren(cs)))
    case Button(style, a) => Button(if style == 0 then 1 else style, NormalAttrs(SchemaOf(BUTTON), a))
    case SelectMenu(_, a) => SelectMenu(TypeOf(c), NormalAttrs(SchemaOf(SELECT_MENU), a))
    case Section(a, cs, x) => Section(NormalAttrs(SchemaOf(SECTION), a), Slice(NormalChildren(cs)), Normal(x))
    case Container(a, cs) => Container(NormalAttrs(SchemaOf(CONTAINER), a), Slice(NormalChildren(cs)))
    case Label(a, x) => Label(NormalAttrs(SchemaOf(LABEL), a), Normal(x))
    case Plain(t, a) => Plain(t, NormalAttrs(SchemaOf(t), a))
  }

  function NormalChildren(cs: Slice<Component>): seq<Component>
    requires forall x <- cs.Items() :: WellTyped(x)
    decreases cs, 1
  {
    match cs
    case NilSlice => []
    case Slice(elems) => NormalAll(elems)
  }

  function NormalAll(cs: seq<Component>): (r: seq<Component>)
    requires forall x <- cs :: WellTyped(x)
    ensures |r| == |cs|
    decreases cs, 0
  {
    if cs == [] then [] else [Normal(cs[0])] + NormalAll(cs[1..])
  }

  /** No nil component stands where one is expected. */
  predicate NoNil(c: Component) {
    match c
    case Nil => false
    case ActionsRow(_, cs) => forall x <- cs.Items() :: NoNil(x)
    case Section(_, cs, x) => (forall y <- cs.Items() :: NoNil(y)) && NoNil(x)
    case Container(_, cs) => forall x <- cs.Items() :: NoNil(x)
    case Label(_, x) => NoNil(x)
    case _ => true
  }

  lemma TypeIsSpecial(t: int)
    ensures "type" !in SchemaOf(t)
  {
  }

  lemma ComponentsIsSpecial(t: int)
    ensures "components" !in SchemaOf(t)
  {
  }

  lemma AccessoryIsSpecial()
    ensures "accessory" !in SchemaOf(SECTION) && "component" !in SchemaOf(LABEL) && "style" !in SchemaOf(BUTTON)
  {
  }

  /** The keys the code treats specially are no struct fields of their own. */
  lemma SpecialKeys(t: int)
    ensures "type" !in SchemaOf(t) && "components" !in SchemaOf(t)
    ensures "accessory" !in SchemaOf(SECTION) && "component" !in SchemaOf(LABEL) && "style" !in SchemaOf(BUTTON)
  {
    hide SchemaOf;
    TypeIsSpecial(t);
    ComponentsIsSpecial(t);
    AccessoryIsSpecial();
  }

  /** The children of a marshalled layout component: all of them, or a failure if one of them fails. */
  lemma {:induction false} AllRoundTrip(cs: seq<Component>)
    requires forall x <- cs :: WellTyped(x)
    ensures UnmarshalAll(MarshalAll(cs)) == if forall x <- cs :: NoNil(x) then Some(NormalAll(cs)) else None
    decreases cs, 0
  {
    if cs != [] {
      RoundTrip(cs[0]);
      AllRoundTrip(cs[1..]);
      assert cs == [cs[0]] + cs[1..];
      assert MarshalAll(cs)[1..] == MarshalAll(cs[1..]);
    }
  }

  lemma {:induction false} ChildrenRoundTrip(cs: Slice<Component>, j: Json)
    requires forall x <- cs.Items() :: WellTyped(x)
    requires j.Obj? && "components" in j.m && j.m["components"] == MarshalSlice(cs)
    ensures UnmarshalChildren(j) == if forall x <- cs.Items() :: NoNil(x) then Some(NormalChildren(cs)) else None
    decreases cs, 1
  {
    match cs
    case NilSlice =>
    case Slice(elems) => AllRoundTrip(elems);
  }

  lemma {:induction false} RowRoundTrip(c: Component)
    requires WellTyped(c) && (c.ActionsRow? || c.Container?)
    ensures Unmarshal(Marshal(c)) == if NoNil(c) then Some(Normal(c)) else None
    decreases c, 2
  {
    hide SchemaOf, EncodeAttrs, DecodeAttrs, NormalAttrs, UnmarshalChildren;
    SpecialKeys(TypeOf(c));
    AttrsRoundTrip(SchemaOf(TypeOf(c)), c.attrs, Marshal(c).m);
    ChildrenRoundTrip(c.children, Marshal(c));
  }

  lemma {:induction false} SectionRoundTrip(c: Component)
    requires WellTyped(c) && c.Section?
    ensures Unmarshal(Marshal(c)) == if NoNil(c) then Some(Normal(c)) else None
    decreases c, 2
  {
    hide SchemaOf, EncodeAttrs, DecodeAttrs, NormalAttrs, UnmarshalChildren;
    SpecialKeys(SECTION);
    AttrsRoundTrip(SchemaOf(SECTION), c.attrs, Marshal(c).m);
    ChildrenRoundTrip(c.children, Marshal(c));
    RoundTrip(c.accessory);
  }

  lemma {:induction false} LabelRoundTrip(c: Component)
    requires WellTyped(c) && c.Label?
    ensures Unmarshal(Marshal(c)) == if NoNil(c) then Some(Normal(c)) else None
    decreases c, 2
  {
    hide SchemaOf, EncodeAttrs, DecodeAttrs, NormalAttrs;
    SpecialKeys(LABEL);
    AttrsRoundTrip(SchemaOf(LABEL), c.attrs, Marshal(c).m);
    RoundTrip(c.inner);
  }

  lemma LeafRoundTrip(c: Component)
    requires WellTyped(c) && (c.Button? || c.SelectMenu? || c.Plain?)
    ensures Unmarshal(Marshal(c)) == Some(Normal(c))
  {
    hide SchemaOf, EncodeAttrs, DecodeAttrs, NormalAttrs;
    SpecialKeys(TypeOf(c));
    if c.SelectMenu? {
      SelectSchemas(TypeOf(c));
    }
    AttrsRoundTrip(SchemaOf(TypeOf(c)), c.attrs, Marshal(c).m);
  }

  /**
   Every well-typed tree of any depth comes back from its JSON in normal form if no component in it is nil, and does
   not come back at all otherwise.
   */
  lemma {:induction false} RoundTrip(c: Component)
    requires WellTyped(c)
    ensures Unmarshal(Marshal(c)) == if NoNil(c) then Some(Normal(c)) else None
    decreases c, 3
  {
    if c.ActionsRow? || c.Container? {
      RowRoundTrip(c);
    } else if c.Section? {
      SectionRoundTrip(c);
    } else if c.Label? {
      LabelRoundTrip(c);
    } else if !c.Nil? {
      LeafRoundTrip(c);
    }
  }

  lemma SelectSchemas(t: int)
    requires IsSelect(t)
    ensures SchemaOf(t) == SchemaOf(SELECT_MENU)
  {
  }

  lemma {:induction false} NormalAllIdempotent(cs: seq<Component>)
    requires forall x <- cs :: WellTyped(x)
    ensures forall x <- NormalAll(cs) :: WellTyped(x)
    ensures NormalAll(NormalAll(cs)) == NormalAll(cs)
    ensures (forall x <- cs :: NoNil(x)) ==> forall x <- NormalAll(cs) :: NoNil(x)
    decreases cs, 0
  {
    if cs != [] {
      NormalIdempotent(cs[0]);
      NormalAllIdempotent(cs[1..]);
      assert NormalAll(cs)[1..] == NormalAll(cs[1..]);
    }
  }

  lemma {:induction false} NormalChildrenIdempotent(cs: Slice<Component>)
    requires forall x <- cs.Items() :: WellTyped(x)
    ensures forall x <- NormalChildren(cs) :: WellTyped(x)
    ensures NormalAll(NormalChildren(cs)) == NormalChildren(cs)
    ensures (forall x <- cs.Items() :: NoNil(x)) ==> forall x <- NormalChildren(cs) :: NoNil(x)
    decreases cs, 1
  {
    match cs
    case NilSlice =>
    case Slice(elems) => NormalAllIdempotent(elems);
  }

  /** A tree in normal form is well-typed and is its own normal form, so a second trip changes nothing. */
  lemma {:induction false} NormalIdempotent(c: Component)
    requires WellTyped(c)
    ensures WellTyped(Normal(c)) && Normal(Normal(c)) == Normal(c)
    ensures NoNil(c) ==> NoNil(Normal(c))
    decreases c, 2
  {
    hide SchemaOf, NormalAttrs, Typed, NormalAll;
    match c
    case ActionsRow(a, cs) =>
      NormalAttrsIdempotent(SchemaOf(ACTIONS_ROW), a);
      NormalChildrenIdempotent(cs);
    case Section(a, cs, x) =>
      NormalAttrsIdempotent(SchemaOf(SECTION), a);
      NormalChildrenIdempotent(cs);
      NormalIdempotent(x);
    case Container(a, cs) =>
      NormalAttrsIdempotent(SchemaOf(CONTAINER), a);
      NormalChildrenIdempotent(cs);
    case Label(a, x) =>
      NormalAttrsIdempotent(SchemaOf(LABEL), a);
      NormalIdempotent(x);
    case Button(_, a) => NormalAttrsIdempotent(SchemaOf(BUTTON), a);
    case SelectMenu(_, a) => NormalAttrsIdempotent(SchemaOf(SELECT_MENU), a);
    case Plain(t, a) => NormalAttrsIdempotent(SchemaOf(t), a);
    case Nil =>
  }

  lemma SecondTripIsStable(c: Component)
    requires WellTyped(c) && NoNil(c)
    ensures WellTyped(Normal(c)) && Unmarshal(Marshal(Normal(c))) == Some(Normal(c))
  {
    NormalIdempotent(c);
    RoundTrip(Normal(c));
  }

  /** A way down a JSON document to a place where a component is expected. */
  datatype Turn = Child(i: nat) | Accessory | Inner

  function Down(j: Json, turn: Turn): Option<Json> {
    if !j.Obj? || TypeNumber(j).None? then None
    else
      var t := TypeNumber(j).value;
      match turn
      case Child(i) =>
        if (t == ACTIONS_ROW || t == CONTAINER || t == SECTION)
          && "components" in j.m && j.m["components"].Arr? && i < |j.m["components"].elems|
        then Some(j.m["components"].elems[i]) else None
      case Accessory => if t == SECTION && "accessory" in j.m then Some(j.m["accessory"]) else None
      case Inner => if t == LABEL && "component" in j.m then Some(j.m["component"]) else None
  }

  function At(j: Json, path: seq<Turn>): Option<Json> {
    if path == [] then Some(j)
    else if Down(j, path[0]).None? then None
    else At(Down(j, path[0]).value, path[1..])
  }

  /** Not the JSON of any component: no type, null, or a type number nobody knows. */
  predicate UnknownType(j: Json) {
    TypeNumber(j).None? || !IsKnown(TypeNumber(j).value)
  }

  lemma {:induction false} OneFailureFailsAll(js: seq<Json>, i: nat)
    requires i < |js| && Unmarshal(js[i]).None?
    ensures UnmarshalAll(js).None?
  {
    if i > 0 {
      OneFailureFailsAll(js[1..], i - 1);
    }
  }

  /** An unknown type anywhere in the document makes the whole parse fail. */
  lemma {:induction false} UnknownTypeFails(j: Json, path: seq<Turn>)
    requires At(j, path).Some? && UnknownType(At(j, path).value)
    ensures Unmarshal(j).None?
    decreases |path|
  {
    hide SchemaOf, DecodeAttrs;
    if path != [] {
      var below := Down(j, path[0]).value;
      UnknownTypeFails(below, path[1..]);
      if path[0].Child? {
        OneFailureFailsAll(j.m["components"].elems, path[0].i);
      }
    }
  }

  /** The first children parsed, and what becomes of the rest. */
  function Prepend(cs: seq<Component>, rest: Option<seq<Component>>): (r: Option<seq<Component>>)
    ensures cs == [] ==> r == rest
    ensures rest == Some([]) ==> r == Some(cs)
  {
    if rest.None? then None
    else
      assert [] + rest.value == rest.value && cs + [] == cs;
      Some(cs + rest.value)
  }

  lemma {:induction false} UnmarshalFrom(js: seq<Json>, i: nat, cs: seq<Component>)
    requires i < |js|
    ensures Unmarshal(js[i]).None? ==> Prepend(cs, UnmarshalAll(js[i..])).None?
    ensures Unmarshal(js[i]).Some? ==>
      Prepend(cs, UnmarshalAll(js[i..])) == Prepend(cs + [Unmarshal(js[i]).value], UnmarshalAll(js[i + 1..]))
  {
    assert js[i..][1..] == js[i + 1..];
    if Unmarshal(js[i]).Some? && UnmarshalAll(js[i + 1..]).Some? {
      var c, rest := Unmarshal(js[i]).value, UnmarshalAll(js[i + 1..]).value;
      assert cs + ([c] + rest) == cs + [c] + rest;
    }
  }

  /** The loops that fill the Components slice of a row, a section or a container. */
  method FillChildren(j: Json) returns (r: Option<seq<Component>>)
    requires j.Obj?
    ensures r == UnmarshalChildren(j)
    decreases j, 0
  {
    if "components" !in j.m || j.m["components"] == Null {
      return Some([]);
    }
    if !j.m["components"].Arr? {
      return None;
    }
    var raw := j.m["components"].elems;
    var cs: seq<Component> := [];
    assert raw[0..] == raw;
    for i := 0 to |raw|
      invariant UnmarshalAll(raw) == Prepend(cs, UnmarshalAll(raw[i..]))
    {
      UnmarshalFrom(raw, i, cs);
      var c := FromJSON(raw[i]);
      if c.None? {
        return None;
      }
      cs := cs + [c.value];
    }
    return Some(cs);
  }

  /** MessageComponentFromJSON: pick the struct by the type number, let it read the document. */
  method FromJSON(j: Json) returns (r: Option<Component>)
    ensures r == Unmarshal(j)
    decreases j, 1
  {
    hide SchemaOf, DecodeAttrs;
    if TypeNumber(j).None? || !IsKnown(TypeNumber(j).value) {
      return None;
    }
    var t := TypeNumber(j).value;
    var attrs := DecodeAttrs(SchemaOf(t), j.m);
    if attrs.None? {
      return None;
    }
    if t == ACTIONS_ROW || t == CONTAINER || t == SECTION {
      var cs := FillChildren(j);
      if cs.None? {
        return None;
      }
      if t == ACTIONS_ROW {
        return Some(ActionsRow(attrs.value, Slice(cs.value)));
      }
      if t == CONTAINER {
        return Some(Container(attrs.value, Slice(cs.value)));
      }
      var x := Some(Nil);
      if "accessory" in j.m {
        x := FromJSON(j.m["accessory"]);
      }
      return if x.None? then None else Some(Section(attrs.value, Slice(cs.value), x.value));
    }
    if t == LABEL {
      var x := Some(Nil);
      if "component" in j.m {
        x := FromJSON(j.m["component"]);
      }
      return if x.None? then None else Some(Label(attrs.value, x.value));
    }
    if t == BUTTON {
      var style := DecodeField(Spec(Nat, false), j.m, "style");
      return if Fits(Nat, style) then Some(Button(style.n, attrs.value)) else None;
    }
    return if IsSelect(t) then Some(SelectMenu(t, attrs.value)) else Some(Plain(t, attrs.value));
  }

  /** The numbers on the wire, and what stands beside them. */
  lemma TypesOnTheWire(c: Component)
    requires WellTyped(c) && !c.Nil?
    ensures var j := Marshal(c); j.Obj? && "type" in j.m && j.m["type"] == Num(
      match c
      case ActionsRow(_, _) => 1
      case Button(_, _) => 2
      case SelectMenu(menuType, _) => if menuType == 0 then 3 else menuType
      case Section(_, _, _) => 9
      case Container(_, _) => 17
      case Label(_, _) => 18
      case Plain(t, _) => t)
    ensures c.Button? ==>
      "style" in Marshal(c).m && Marshal(c).m["style"] == Num(if c.style == 0 then 1 else c.style)
    ensures c.Section? ==> "accessory" in Marshal(c).m && Marshal(c).m["accessory"] == Marshal(c.accessory)
    ensures c.Label? ==> "component" in Marshal(c).m && Marshal(c).m["component"] == Marshal(c.inner)
  {
    hide SchemaOf, EncodeAttrs;
  }

  /** The children go out in order, a nil list as null. */
  lemma {:induction false} ChildrenOnTheWire(c: Component)
    requires WellTyped(c) && (c.ActionsRow? || c.Section? || c.Container?)
    ensures "components" in Marshal(c).m
    ensures var cs := Marshal(c).m["components"];
      match c.children
      case NilSlice => cs == Null
      case Slice(xs) => cs.Arr? && |cs.elems| == |xs| && forall i :: 0 <= i < |xs| ==> cs.elems[i] == Marshal(xs[i])
  {
    hide SchemaOf, EncodeAttrs;
    if c.children.Slice? {
      forall i | 0 <= i < |c.children.elems| {
        MarshalledAt(c.children.elems, i);
      }
    }
  }

  lemma {:induction false} MarshalledAt(cs: seq<Component>, i: nat)
    requires (forall x <- cs :: WellTyped(x)) && i < |cs|
    ensures MarshalAll(cs)[i] == Marshal(cs[i])
  {
    if i > 0 {
      MarshalledAt(cs[1..], i - 1);
    }
  }

  /** A struct field is on the wire with its value, unless it is optional and has nothing to say. */
  lemma FieldsOnTheWire(c: Component, k: string)
    requires WellTyped(c) && !c.Nil? && k in c.attrs
    ensures k in SchemaOf(TypeOf(c))
    ensures var m, s := Marshal(c).m, SchemaOf(TypeOf(c))[k];
      && (k in m ==> m[k] == c.attrs[k])
      && (k !in m <==> s.omitEmpty && SaysNothing(s.kind, c.attrs[k]))
  {
    if c.SelectMenu? {
      SelectSchemas(TypeOf(c));
    }
    hide SchemaOf;
    SpecialKeys(TypeOf(c));
    SaysNothingIsEmpty(SchemaOf(TypeOf(c))[k].kind, c.attrs[k]);
  }

  /** Nil, the empty string, 0 and false; a pointer to such a value is not nil, and a struct always says something. */
  predicate SaysNothing(k: Kind, v: Json) {
    match v
    case Null => true
    case Flag(b) => k == Bool && !b
    case Num(n) => (k == Int || k == Nat) && n == 0
    case Text(s) => k == Str && s == ""
    case Arr(elems) => elems == []
    case Obj(_) => false
  }

  lemma SaysNothingIsEmpty(k: Kind, v: Json)
    requires Fits(k, v)
    ensures SaysNothing(k, v) <==> IsEmpty(k, v)
  {
  }

  /** What a field that was not in the document holds: nothing, or a media item without a URL. */
  predicate Unset(k: Kind, v: Json) {
    if k == Media then v == Obj(map["url" := Text("")]) else SaysNothing(k, v) && v != Arr([])
  }

  lemma DecodedFields(s: Schema, m: map<string, Json>)
    requires DecodeAttrs(s, m).Some?
    ensures var a := DecodeAttrs(s, m).value;
      && a.Keys == s.Keys
      && forall k <- a :: if k in m && m[k] != Null then a[k] == m[k] else Unset(s[k].kind, a[k])
  {
  }

  /** A type number decides which struct a document becomes, and each field is taken from under its name. */
  lemma NumbersDecide(j: Json)
    requires Unmarshal(j).Some?
    ensures TypeNumber(j).Some?
    ensures var t, c := TypeNumber(j).value, Unmarshal(j).value;
      && (c.ActionsRow? <==> t == 1) && (c.Button? <==> t == 2)
      && (c.SelectMenu? <==> t == 3 || 5 <= t <= 8) && (c.SelectMenu? ==> c.menuType == t)
      && (c.Section? <==> t == 9) && (c.Container? <==> t == 17) && (c.Label? <==> t == 18)
      && (c.Plain? <==> t == 4 || 10 <= t <= 14 || t == 19) && (c.Plain? ==> c.t == t)
      && c.attrs.Keys == SchemaOf(t).Keys
      && forall k <- c.attrs ::
        if k in j.m && j.m[k] != Null then c.attrs[k] == j.m[k] else Unset(SchemaOf(t)[k].kind, c.attrs[k])
  {
    hide SchemaOf, DecodeAttrs, Unset;
    DecodedFields(SchemaOf(TypeNumber(j).value), j.m);
  }

  /** A document that holds nothing but a type number parses if the number is a component's. */
  lemma KnownNumbers(t: nat)
    ensures Unmarshal(Obj(map["type" := Num(t)])).Some? <==> 1 <= t <= 14 || 17 <= t <= 19
  {
    hide SchemaOf;
    SpecialKeys(t);
    var s, m := SchemaOf(t), map["type" := Num(t)];
    assert forall k <- s :: DecodeField(s[k], m, k) == Zero(s[k].kind);
  }

  /** Exactly these keys, of which the second group is left out when it says nothing. */
  predicate Fields(t: int, always: set<string>, optional: set<string>) {
    && SchemaOf(t).Keys == always + optional
    && forall k <- SchemaOf(t) :: SchemaOf(t)[k].omitEmpty <==> k in optional
  }

  lemma LayoutFields()
    ensures Fields(1, {}, {"id"}) && Fields(9, {}, {"id"})
    ensures Fields(17, {"spoiler"}, {"id", "accent_color"})
    ensures Fields(18, {"label"}, {"id", "description"})
  {
  }

  lemma ThumbnailFields()
    ensures Fields(10, {"content"}, {})
    ensures Fields(11, {"media"}, {"id", "description", "spoiler"})
  {
  }

  lemma ContentFields()
    ensures Fields(12, {"items"}, {"id"})
    ensures Fields(13, {"file", "spoiler"}, {"id"})
    ensures Fields(14, {}, {"id", "divider", "spacing"})
  {
  }

  lemma ButtonFields()
    ensures Fields(2, {"label", "disabled"}, {"emoji", "url", "custom_id", "sku_id", "id"})
  {
  }

  lemma SelectFields(t: int)
    requires t == 3 || 5 <= t <= 8
    ensures Fields(t, {"placeholder", "disabled"},
      {"custom_id", "min_values", "max_values", "default_values", "options", "required", "channel_types", "id",
       "values"})
  {
  }

  lemma InputFields()
    ensures Fields(4, {"custom_id", "style"},
      {"label", "placeholder", "value", "required", "min_length", "max_length", "id"})
  {
  }

  lemma UploadFields()
    ensures Fields(19, {}, {"id", "custom_id", "min_values", "max_values", "required", "values"})
  {
  }

  /** A field has the same kind in every struct, except that the description of a label is no pointer. */
  predicate HasKind(k: string, kind: Kind, t: int) {
    match kind
    case Str => k in {"label", "url", "custom_id", "sku_id", "placeholder", "value", "content"}
      || (k == "description" && t == 18)
    case Int => k in {"id", "max_values", "min_length", "max_length"}
    case Nat => k == "style"
    case Bool => k in {"disabled", "spoiler"}
    case PtrStr => k == "description" && t == 11
    case PtrInt => k in {"min_values", "accent_color"}
    case PtrNat => k == "spacing"
    case PtrBool => k in {"required", "divider"}
    case PtrObj => k == "emoji"
    case List => k in {"default_values", "options", "channel_types", "values", "items"}
    case Media => k in {"media", "file"}
  }

  lemma LeafKinds(t: int, k: string)
    requires (t == BUTTON || t == TEXT_INPUT) && k in SchemaOf(t)
    ensures HasKind(k, SchemaOf(t)[k].kind, t)
  {
  }

  lemma SelectKinds(t: int, k: string)
    requires (IsSelect(t) || t == FILE_UPLOAD) && k in SchemaOf(t)
    ensures HasKind(k, SchemaOf(t)[k].kind, t)
  {
  }

  lemma OtherKinds(t: int, k: string)
    requires t != BUTTON && t != TEXT_INPUT && !IsSelect(t) && t != FILE_UPLOAD && k in SchemaOf(t)
    ensures HasKind(k, SchemaOf(t)[k].kind, t)
  {
  }

  lemma FieldKinds(t: int, k: string)
    requires k in SchemaOf(t)
    ensures HasKind(k, SchemaOf(t)[k].kind, t)
  {
    hide SchemaOf;
    if t == BUTTON || t == TEXT_INPUT {
      LeafKinds(t, k);
    } else if IsSelect(t) || t == FILE_UPLOAD {
      SelectKinds(t, k);
    } else {
      OtherKinds(t, k);
    }
  }
}
