/** The JSON values `json.loads` produces, as the chat route reads them, and the
    two facts about `json.loads` the route's behaviour depends on. The decoder
    itself is a parameter of the chat model. */
module Json {
  import opened Http

  /** A decoded JSON value. An object keeps its members in the order a Python
      `dict` keeps them. */
  datatype Json =
    | JNull
    | JBool(b: bool)
    | JNum(n: real)
    | JStr(s: string)
    | JArr(items: seq<Json>)
    | JObj(members: seq<Member>)

  datatype Member = Member(key: string, value: Json)

  /** `key in d` and `d[key]`: the member with that key, if there is one. */
  function Lookup(members: seq<Member>, key: string): (r: Option<Json>)
    ensures r.Some? <==> exists i :: 0 <= i < |members| && members[i].key == key
    ensures r.Some? ==> exists i :: 0 <= i < |members| && members[i] == Member(key, r.value)
  {
    if |members| == 0 then None
    else if members[0].key == key then Some(members[0].value)
    else Lookup(members[1..], key)
  }

  /** `d.get(key)`: the value, or Python's `None` (the same as JSON `null`) when absent. */
  function Get(members: seq<Member>, key: string): (r: Json)
    ensures (forall i :: 0 <= i < |members| ==> members[i].key != key) ==> r == JNull
    ensures r != JNull ==> exists i :: 0 <= i < |members| && members[i] == Member(key, r)
    ensures Lookup(members, key).Some? ==> r == Lookup(members, key).value
  {
    match Lookup(members, key)
    case Some(v) => v
    case None => JNull
  }

  /** The whitespace `json.loads` skips around a document. */
  predicate IsJsonSpace(c: char)
  {
    c == ' ' || c == '\t' || c == '\n' || c == '\r'
  }

  function SkipJsonSpace(s: string): (r: string)
    ensures |r| <= |s|
    ensures r == [] || !IsJsonSpace(r[0])
  {
    if |s| > 0 && IsJsonSpace(s[0]) then SkipJsonSpace(s[1..]) else s
  }

  /** The characters that open a string, an object, an array or a number in
      Python's decoder (a number may start with `-`, as `-Infinity` does). */
  predicate OpensValue(c: char)
  {
    c in "\"{[-0123456789"
  }

  /** The bare words Python's decoder accepts as constants. */
  const Literals: seq<string> := ["null", "true", "false", "NaN", "Infinity"]

  /** Whether the text, after leading whitespace, begins like a JSON value: with
      a character that opens one, or with one of the constant words. */
  predicate BeginsLikeJson(s: string)
  {
    var t := SkipJsonSpace(s);
    |t| > 0 && (OpensValue(t[0]) || exists w :: w in Literals && w <= t)
  }

  /** `t` disagrees with the word `w` at some position both have, so no text
      that begins with `t` begins with `w`. */
  predicate Differs(t: string, w: string)
  {
    exists k :: 0 <= k < |t| && k < |w| && t[k] != w[k]
  }

  /** Prose that cannot be the start of a JSON document, whatever follows it:
      after whitespace it begins with a character that opens no value and with
      a word that is none of the constants. */
  predicate NotJsonLead(s: string)
  {
    var t := SkipJsonSpace(s);
    |t| > 0 && !OpensValue(t[0]) && forall w :: w in Literals ==> Differs(t, w)
  }

  /** Skipping whitespace is not affected by what follows the first non-blank character. */
  lemma {:induction false} SkipJsonSpaceAppend(s: string, rest: string)
    requires SkipJsonSpace(s) != []
    ensures SkipJsonSpace(s + rest) == SkipJsonSpace(s) + rest
  {
    if |s| > 0 && IsJsonSpace(s[0]) {
      assert (s + rest)[1..] == s[1..] + rest;
      SkipJsonSpaceAppend(s[1..], rest);
    }
  }

  /** Text that begins with such prose does not begin like JSON. */
  lemma NotJsonLeadExtends(s: string, rest: string)
    requires NotJsonLead(s)
    ensures !BeginsLikeJson(s + rest)
  {
    var t := SkipJsonSpace(s);
    SkipJsonSpaceAppend(s, rest);
    forall w | w in Literals
      ensures !(w <= t + rest)
    {
      assert Differs(t, w);
      var k :| 0 <= k < |t| && k < |w| && t[k] != w[k];
      assert (t + rest)[k] == t[k];
    }
  }

  predicate HasNonSpace(s: string)
  {
    exists i :: 0 <= i < |s| && !IsJsonSpace(s[i])
  }

  /** No key occurs twice among an object's members. */
  predicate DistinctKeys(members: seq<Member>)
  {
    forall i, j :: 0 <= i < j < |members| ==> members[i].key != members[j].key
  }

  /** What the chat route relies on in `json.loads`: it decodes the WHOLE text.
      It fails on a text that does not begin (after whitespace) like a value,
      and it fails when anything but whitespace follows a complete object. A
      decoded object is a `dict`, so its keys are distinct (a repeated key in the
      text keeps its last value). */
  ghost predicate DecodesWholeText(loads: string -> Option<Json>)
  {
    && (forall s :: loads(s).Some? && loads(s).value.JObj? ==> DistinctKeys(loads(s).value.members))
    && (forall s :: !BeginsLikeJson(s) ==> loads(s) == None)
    && (forall s, t :: loads(s).Some? && loads(s).value.JObj? && HasNonSpace(t) ==> loads(s + t) == None)
  }
}
