/**
  An abstract JSON value, standing for what a tokenizer hands the loaders.
  An object is the sequence of its members in document order; nothing
  forces its keys to be distinct (section 4 of RFC 8259 leaves duplicate
  names to the implementation).
 */
module Json {
  import opened Collections
  import opened CString

  datatype Json =
    | JNull
    | JBool(b: bool)
    | JNumber(literal: string)
    | JString(str: string)
    | JArray(elems: seq<Json>)
    | JObject(members: seq<Member>)

  datatype Member = Member(key: string, value: Json)

  /** The member list of an object; other values have none. */
  function MembersOf(v: Json): seq<Member> {
    if v.JObject? then v.members else []
  }

  /**
    json-c's `json_object_object_get_ex`: the value of the member whose key
    is exactly `key`; nothing when `obj` is not an object.
   */
  function Get(obj: Json, key: string): (r: Option<Json>)
    ensures r.None? <==> forall i :: 0 <= i < |MembersOf(obj)| ==> MembersOf(obj)[i].key != key
    ensures r.Some? ==> exists i :: IsFirst(MembersOf(obj), (m: Member) => m.key == key, i) && r.value == MembersOf(obj)[i].value
  {
    var ms := MembersOf(obj);
    match FindFirst(ms, (m: Member) => m.key == key)
    case None => None
    case Some(i) => Some(ms[i].value)
  }

  /**
    cJSON's `cJSON_GetObjectItem`: the value of the first member whose key
    equals `key` ignoring ASCII case; nothing when `obj` is not an object.
   */
  function GetCaseless(obj: Json, key: string): (r: Option<Json>)
    ensures r.None? <==> forall i :: 0 <= i < |MembersOf(obj)| ==> !StrCaseEq(MembersOf(obj)[i].key, key)
    ensures r.Some? ==> exists i :: IsFirst(MembersOf(obj), (m: Member) => StrCaseEq(m.key, key), i) && r.value == MembersOf(obj)[i].value
  {
    var ms := MembersOf(obj);
    match FindFirst(ms, (m: Member) => StrCaseEq(m.key, key))
    case None => None
    case Some(i) => Some(ms[i].value)
  }

  /** No key occurs twice, as in a Python dict. */
  predicate DistinctKeys(ms: seq<Member>) {
    forall i, j :: 0 <= i < j < |ms| ==> ms[i].key != ms[j].key
  }

  /** Lookup in an object finds the first member carrying the key. */
  lemma GetFirstMatch(ms: seq<Member>, i: nat, key: string)
    requires i < |ms| && ms[i].key == key
    requires forall j :: 0 <= j < i ==> ms[j].key != key
    ensures Get(JObject(ms), key) == Some(ms[i].value)
  {
    var r := Get(JObject(ms), key);
    var k :| IsFirst(ms, (m: Member) => m.key == key, k) && r.value == ms[k].value;
    FirstIsUnique(ms, (m: Member) => m.key == key, i, k);
  }

  /** Lookup in an object with distinct keys finds each member under its own key. */
  lemma GetDistinct(ms: seq<Member>, i: nat)
    requires DistinctKeys(ms) && i < |ms|
    ensures Get(JObject(ms), ms[i].key) == Some(ms[i].value)
  {
    GetFirstMatch(ms, i, ms[i].key);
  }

  /** An object with one member: both lookups find it under its own key. */
  lemma SingleMemberLookup(k: string, v: Json)
    ensures Get(JObject([Member(k, v)]), k) == Some(v)
    ensures StrCaseEq(k, k)
    ensures GetCaseless(JObject([Member(k, v)]), k) == Some(v)
  {
  }

  /** `valuestring`: the text of a string value, NULL (`None`) for every other kind. */
  function ValueString(v: Json): Option<string> {
    if v.JString? then Some(v.str) else None
  }
}
