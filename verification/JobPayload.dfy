/** What a background job's arguments become in the database and back (_encode, _decode, _seal and
    _open of services/background.py). Encryption is left aside; moments, days and decimals are their
    texts. */
module JobPayload {
  import opened Collections

  datatype Value =
    | Null
    | Bool(flag: bool)
    | Num(n: int)
    | Str(text: string)
    | DateTime(iso: string)
    | Date(iso: string)
    | Decimal(digits: string)
    | List(items: Values)
    | Tuple(parts: Values)
    | Dict(fields: Fields)
    | Other                                   // anything else: json.dumps asks _encode, which raises

  datatype Values = End | Item(first: Value, rest: Values)

  /** json.dumps writes numbers, booleans and None as keys in their text form and refuses any other. */
  datatype Key = Name(text: string) | Written(text: string) | Unusable

  datatype Fields = NoMore | Field(key: Key, value: Value, more: Fields)

  datatype Json =
    | JNull
    | JBool(flag: bool)
    | JNum(n: int)
    | JStr(text: string)
    | JList(items: Jsons)
    | JDict(fields: JFields)

  datatype Jsons = JEnd | JItem(first: Json, rest: Jsons)

  datatype JFields = JNoMore | JField(key: string, value: Json, more: JFields)

  function Tagged(tag: string, text: string): Json {
    JDict(JField(tag, JStr(text), JNoMore))
  }

  /** json.dumps with `_encode`: tuples become lists, and what JSON has no form for gets a tag. */
  function Encode(v: Value): Option<Json> {
    match v
    case Null => Some(JNull)
    case Bool(b) => Some(JBool(b))
    case Num(n) => Some(JNum(n))
    case Str(s) => Some(JStr(s))
    case DateTime(iso) => Some(Tagged("__datetime__", iso))
    case Date(iso) => Some(Tagged("__date__", iso))
    case Decimal(digits) => Some(Tagged("__decimal__", digits))
    case List(items) => var e := EncodeAll(items); if e.None? then None else Some(JList(e.value))
    case Tuple(parts) => var e := EncodeAll(parts); if e.None? then None else Some(JList(e.value))
    case Dict(fields) => var e := EncodeFields(fields); if e.None? then None else Some(JDict(e.value))
    case Other => None
  }

  function EncodeAll(vs: Values): Option<Jsons> {
    match vs
    case End => Some(JEnd)
    case Item(v, rest) =>
      var first, others := Encode(v), EncodeAll(rest);
      if first.None? || others.None? then None else Some(JItem(first.value, others.value))
  }

  function EncodeFields(fs: Fields): Option<JFields> {
    match fs
    case NoMore => Some(JNoMore)
    case Field(k, v, more) =>
      var value, others := Encode(v), EncodeFields(more);
      if value.None? || others.None? || k.Unusable? then None else Some(JField(k.text, value.value, others.value))
  }

  function Lookup(fs: Fields, key: string): Option<Value> {
    match fs
    case NoMore => None
    case Field(k, v, more) => if k == Name(key) then Some(v) else Lookup(more, key)
  }

  /** `_decode`, given the object with its parts already decoded. */
  function Hook(fs: Fields): Option<Value> {
    var moment, day, number := Lookup(fs, "__datetime__"), Lookup(fs, "__date__"), Lookup(fs, "__decimal__");
    if moment.Some? then (match moment.value case Str(s) => Some(DateTime(s)) case _ => None)
    else if day.Some? then (match day.value case Str(s) => Some(Date(s)) case _ => None)
    else if number.Some? then (match number.value case Str(s) => Some(Decimal(s)) case _ => None)
    else Some(Dict(fs))
  }

  /** json.loads with `_decode`, innermost objects first. */
  function Decode(j: Json): Option<Value> {
    match j
    case JNull => Some(Null)
    case JBool(b) => Some(Bool(b))
    case JNum(n) => Some(Num(n))
    case JStr(s) => Some(Str(s))
    case JList(items) => var d := DecodeAll(items); if d.None? then None else Some(List(d.value))
    case JDict(fields) => var d := DecodeFields(fields); if d.None? then None else Hook(d.value)
  }

  function DecodeAll(js: Jsons): Option<Values> {
    match js
    case JEnd => Some(End)
    case JItem(j, rest) =>
      var first, others := Decode(j), DecodeAll(rest);
      if first.None? || others.None? then None else Some(Item(first.value, others.value))
  }

  function DecodeFields(js: JFields): Option<Fields> {
    match js
    case JNoMore => Some(NoMore)
    case JField(k, j, more) =>
      var value, others := Decode(j), DecodeFields(more);
      if value.None? || others.None? then None else Some(Field(Name(k), value.value, others.value))
  }

  /** No tuple, nothing JSON cannot hold, and no dictionary with a key that is no text or looks like a
      tag. */
  predicate Storable(v: Value) {
    match v
    case List(items) => AllStorable(items)
    case Tuple(_) => false
    case Dict(fields) =>
      && FieldsStorable(fields)
      && Lookup(fields, "__datetime__") == None && Lookup(fields, "__date__") == None
      && Lookup(fields, "__decimal__") == None
    case Other => false
    case _ => true
  }

  predicate AllStorable(vs: Values) {
    vs.Item? ==> Storable(vs.first) && AllStorable(vs.rest)
  }

  predicate FieldsStorable(fs: Fields) {
    fs.Field? ==> fs.key.Name? && Storable(fs.value) && FieldsStorable(fs.more)
  }

  predicate ComesBack(v: Value) {
    Encode(v).Some? && Decode(Encode(v).value) == Some(v)
  }

  lemma TagsComeBack(v: Value)
    requires v.DateTime? || v.Date? || v.Decimal?
    ensures ComesBack(v)
  {
    var tag := if v.DateTime? then "__datetime__" else if v.Date? then "__date__" else "__decimal__";
    var text := if v.Decimal? then v.digits else v.iso;
    assert Encode(v) == Some(Tagged(tag, text));
    assert DecodeFields(JNoMore) == Some(NoMore);
    assert DecodeFields(JField(tag, JStr(text), JNoMore)) == Some(Field(Name(tag), Str(text), NoMore));
    assert |"__datetime__"| == 12 && |"__date__"| == 8 && |"__decimal__"| == 11;
    assert Lookup(NoMore, "__datetime__") == None && Lookup(NoMore, "__date__") == None
        && Lookup(NoMore, "__decimal__") == None;
  }

  /** A job gets back exactly the arguments it was queued with, if and only if they are storable. */
  lemma {:induction false} ComesBackIff(v: Value)
    ensures ComesBack(v) <==> Storable(v)
  {
    match v
    case List(items) => AllComeBackIff(items);
    case Tuple(parts) =>
    case Dict(fields) => FieldsComeBackIff(fields);
    case DateTime(_) => TagsComeBack(v);
    case Date(_) => TagsComeBack(v);
    case Decimal(_) => TagsComeBack(v);
    case _ =>
  }

  lemma {:induction false} AllComeBackIff(vs: Values)
    ensures EncodeAll(vs).Some? && DecodeAll(EncodeAll(vs).value) == Some(vs) <==> AllStorable(vs)
  {
    if vs.Item? {
      ComesBackIff(vs.first);
      AllComeBackIff(vs.rest);
    }
  }

  lemma {:induction false} FieldsComeBackIff(fs: Fields)
    ensures EncodeFields(fs).Some? && DecodeFields(EncodeFields(fs).value) == Some(fs) <==> FieldsStorable(fs)
  {
    if fs.Field? {
      ComesBackIff(fs.value);
      FieldsComeBackIff(fs.more);
    }
  }
}
