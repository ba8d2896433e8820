/** The conversions between a string-keyed `Map`, a plain object and JSON
    text (js/util.js). JSON itself is left abstract: a codec is a pair of
    functions, and what the conversions promise is stated relative to the
    codec's own round trip. */
module Util {
  import opened Types

  /** A plain JavaScript object built with `Object.create(null)`: `own` maps
      each own enumerable string key to its value. */
  datatype JsObject<V> = JsObject(own: map<string, V>)

  /** `JSON.stringify` and `JSON.parse` on objects; `parse` yields None
      where `JSON.parse` throws. */
  datatype JsonCodec<!V> = JsonCodec(stringify: JsObject<V> -> string, parse: string -> Option<JsObject<V>>)

  /** The codec reads back what it writes, and never writes the empty
      string (`JSON.stringify` of an object is at least `{}`). */
  ghost predicate RoundTrips<V(!new)>(codec: JsonCodec<V>)
  {
    forall o :: codec.stringify(o) != "" && codec.parse(codec.stringify(o)) == Some(o)
  }

  /** The object a map converts to: same keys, same values. */
  function ObjectOf<V>(strMap: map<string, V>): (r: JsObject<V>)
  {
    JsObject(strMap)
  }

  /** The map an object converts to: its own keys with their values. */
  function MapOf<V>(obj: JsObject<V>): (r: map<string, V>)
  {
    obj.own
  }

  /** The JSON text a map is stored as. */
  function JsonOf<V>(strMap: map<string, V>, codec: JsonCodec<V>): (r: string)
  {
    codec.stringify(ObjectOf(strMap))
  }

  /** The map JSON text is read back as; None where `JSON.parse` throws. */
  function MapOfJson<V>(json: string, codec: JsonCodec<V>): (r: Option<map<string, V>>)
  {
    match codec.parse(json)
    case None => None
    case Some(obj) => Some(MapOf(obj))
  }

  /** `strMapToObj`: copies every entry of the map into a fresh object. */
  method StrMapToObj<V>(strMap: map<string, V>) returns (obj: JsObject<V>)
    ensures obj.own.Keys == strMap.Keys
    ensures forall k :: k in strMap ==> obj.own[k] == strMap[k]
    ensures obj == ObjectOf(strMap)
  {
    obj := JsObject(map[]);
    var pending := strMap.Keys;
    while pending != {}
      invariant pending <= strMap.Keys
      invariant obj.own.Keys == strMap.Keys - pending
      invariant forall k :: k in obj.own ==> obj.own[k] == strMap[k]
      decreases pending
    {
      var k :| k in pending;
      obj := JsObject(obj.own[k := strMap[k]]);
      pending := pending - {k};
    }
  }

  /** `objToStrMap`: copies every own key of the object into a fresh map. */
  method ObjToStrMap<V>(obj: JsObject<V>) returns (strMap: map<string, V>)
    ensures strMap.Keys == obj.own.Keys
    ensures forall k :: k in obj.own ==> strMap[k] == obj.own[k]
    ensures strMap == MapOf(obj)
  {
    strMap := map[];
    var pending := obj.own.Keys;
    while pending != {}
      invariant pending <= obj.own.Keys
      invariant strMap.Keys == obj.own.Keys - pending
      invariant forall k :: k in strMap ==> strMap[k] == obj.own[k]
      decreases pending
    {
      var k :| k in pending;
      strMap := strMap[k := obj.own[k]];
      pending := pending - {k};
    }
  }

  /** `strMapToJson`: `JSON.stringify(strMapToObj(strMap))`. */
  method StrMapToJson<V>(strMap: map<string, V>, codec: JsonCodec<V>) returns (json: string)
    ensures json == JsonOf(strMap, codec)
  {
    var obj := StrMapToObj(strMap);
    json := codec.stringify(obj);
  }

  /** `jsonToStrMap`: `objToStrMap(JSON.parse(json))`; None where the parse throws. */
  method JsonToStrMap<V>(json: string, codec: JsonCodec<V>) returns (r: Option<map<string, V>>)
    ensures r == MapOfJson(json, codec)
  {
    var parsed := codec.parse(json);
    if parsed.None? {
      return None;
    }
    var strMap := ObjToStrMap(parsed.value);
    r := Some(strMap);
  }

  /** A map survives the trip through an object and back. */
  lemma ObjectRoundTrip<V>(strMap: map<string, V>)
    ensures MapOf(ObjectOf(strMap)) == strMap
  {
  }

  /** A map survives the trip through JSON text, given a codec that
      round-trips. */
  lemma JsonRoundTrip<V(!new)>(strMap: map<string, V>, codec: JsonCodec<V>)
    requires RoundTrips(codec)
    ensures MapOfJson(JsonOf(strMap, codec), codec) == Some(strMap)
  {
  }
}
