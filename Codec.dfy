/**
 * The wire format of the chat ring: every connection carries one JSON object
 * (RFC 8259, section 4) of the shape
 *   {"type": <tag>, "parameters": {<key>: <value>, ...}}
 * built by one of the five message builders and read back by the listener
 * with fixed key names.  Only the logical object structure is modelled; the
 * byte-level serialisation is not.
 */
module Codec {

  /** A JSON value as far as the protocol uses one: strings, integral
      numbers and objects, an object being a map from member name to value. */
  datatype Json =
    | JString(str: string)
    | JNumber(num: int)
    | JObject(fields: map<string, Json>)

  /** The five message variants of the protocol. */
  datatype Msg =
    | Join(alias: string, port: int)
    | Accept(ipPred: string, portPred: int)
    | NewSuccessor(ip: string, port: int)
    | Leave(ipPred: string, portPred: int)
    | Put(sender: string, receiver: string, body: string)

  datatype Option<T> = None | Some(value: T)

  /** What the listener makes of one received object: a message it handles,
      a type it has no branch for (ignored), or an object whose reads fail
      (a missing member or one of the wrong kind). */
  datatype Decoded =
    | Decoded(msg: Msg)
    | Unrecognised(tag: string)
    | Malformed

  /** The discriminant each variant is sent with. */
  function Tag(m: Msg): string
  {
    match m
    case Join(_, _) => "JOIN"
    case Accept(_, _) => "ACCEPT"
    case NewSuccessor(_, _) => "NEWSUCCESSOR"
    case Leave(_, _) => "LEAVE"
    case Put(_, _, _) => "PUT"
  }

  const Tags: set<string> := {"JOIN", "ACCEPT", "NEWSUCCESSOR", "LEAVE", "PUT"}

  function Envelope(tag: string, parameters: map<string, Json>): Json
  {
    JObject(map["type" := JString(tag), "parameters" := JObject(parameters)])
  }

  // ---------------------------------------------------------------------
  // Builders: one per variant, each read back by the listener unchanged.

  function CreateJoinMsg(alias: string, myPort: int): (v: Json)
    ensures Decode(v) == Decoded(Join(alias, myPort))
  {
    Envelope("JOIN", map["myAlias" := JString(alias), "myPort" := JNumber(myPort)])
  }

  function CreateAcceptMsg(ip: string, port: int): (v: Json)
    ensures Decode(v) == Decoded(Accept(ip, port))
  {
    Envelope("ACCEPT", map["ipPred" := JString(ip), "portPred" := JNumber(port)])
  }

  function CreateNewSuccessorMsg(ip: string, port: int): (v: Json)
    ensures Decode(v) == Decoded(NewSuccessor(ip, port))
  {
    Envelope("NEWSUCCESSOR", map["ipSuccessor" := JString(ip), "portSuccessor" := JNumber(port)])
  }

  /** Unlike ACCEPT, the port of a LEAVE travels under "portPredecessor". */
  function CreateLeaveMsg(ipPred: string, portPred: int): (v: Json)
    ensures Decode(v) == Decoded(Leave(ipPred, portPred))
  {
    Envelope("LEAVE", map["ipPred" := JString(ipPred), "portPredecessor" := JNumber(portPred)])
  }

  function CreatePutMsg(aliasSender: string, aliasReceiver: string, message: string): (v: Json)
    ensures Decode(v) == Decoded(Put(aliasSender, aliasReceiver, message))
  {
    Envelope("PUT", map["aliasSender" := JString(aliasSender),
                        "aliasReceiver" := JString(aliasReceiver),
                        "message" := JString(message)])
  }

  /** The object a peer writes for `m`. */
  function Encode(m: Msg): (v: Json)
    ensures Decode(v) == Decoded(m)
    ensures v.JObject? && "type" in v.fields && "parameters" in v.fields
    ensures v.fields["type"] == JString(Tag(m)) && v.fields["parameters"].JObject?
  {
    match m
    case Join(alias, port) => CreateJoinMsg(alias, port)
    case Accept(ip, port) => CreateAcceptMsg(ip, port)
    case NewSuccessor(ip, port) => CreateNewSuccessorMsg(ip, port)
    case Leave(ip, port) => CreateLeaveMsg(ip, port)
    case Put(sender, receiver, body) => CreatePutMsg(sender, receiver, body)
  }

  // ---------------------------------------------------------------------
  // Reading: the accessors of a JSON object.  A member that is absent or
  // of another kind makes the accessor fail (None).

  function GetString(o: map<string, Json>, key: string): (r: Option<string>)
    ensures r.Some? <==> key in o && o[key].JString?
    ensures r.Some? ==> o[key] == JString(r.value)
  {
    if key in o && o[key].JString? then Some(o[key].str) else None
  }

  function GetInt(o: map<string, Json>, key: string): (r: Option<int>)
    ensures r.Some? <==> key in o && o[key].JNumber?
    ensures r.Some? ==> o[key] == JNumber(r.value)
  {
    if key in o && o[key].JNumber? then Some(o[key].num) else None
  }

  function GetObject(o: map<string, Json>, key: string): (r: Option<map<string, Json>>)
    ensures r.Some? <==> key in o && o[key].JObject?
    ensures r.Some? ==> o[key] == JObject(r.value)
  {
    if key in o && o[key].JObject? then Some(o[key].fields) else None
  }

  /** The listener's reading of one object: the type first; a type without a
      branch is ignored before the parameters are looked at; otherwise the
      branch reads its own keys from the parameter block. */
  function Decode(v: Json): (d: Decoded)
    ensures d.Decoded? ==> v.JObject? && GetString(v.fields, "type") == Some(Tag(d.msg))
    ensures d.Unrecognised? ==> v.JObject? && GetString(v.fields, "type") == Some(d.tag) && d.tag !in Tags
    ensures v.JObject? && GetString(v.fields, "type").Some? && GetString(v.fields, "type").value !in Tags ==>
      d == Unrecognised(GetString(v.fields, "type").value)
  {
    if !v.JObject? then Malformed
    else
      match GetString(v.fields, "type")
      case None => Malformed
      case Some(tag) =>
        if tag !in Tags then Unrecognised(tag)
        else
          match GetObject(v.fields, "parameters")
          case None => Malformed
          case Some(p) => DecodeParameters(tag, p)
  }

  function DecodeParameters(tag: string, p: map<string, Json>): (d: Decoded)
    requires tag in Tags
    ensures d.Decoded? ==> Tag(d.msg) == tag
    ensures !d.Unrecognised?
  {
    if tag == "JOIN" then
      match (GetString(p, "myAlias"), GetInt(p, "myPort"))
      case (Some(alias), Some(port)) => Decoded(Join(alias, port))
      case _ => Malformed
    else if tag == "ACCEPT" then
      match (GetString(p, "ipPred"), GetInt(p, "portPred"))
      case (Some(ip), Some(port)) => Decoded(Accept(ip, port))
      case _ => Malformed
    else if tag == "NEWSUCCESSOR" then
      match (GetString(p, "ipSuccessor"), GetInt(p, "portSuccessor"))
      case (Some(ip), Some(port)) => Decoded(NewSuccessor(ip, port))
      case _ => Malformed
    else if tag == "PUT" then
      match (GetString(p, "aliasReceiver"), GetString(p, "aliasSender"), GetString(p, "message"))
      case (Some(receiver), Some(sender), Some(body)) => Decoded(Put(sender, receiver, body))
      case _ => Malformed
    else
      match (GetString(p, "ipPred"), GetInt(p, "portPredecessor"))
      case (Some(ip), Some(port)) => Decoded(Leave(ip, port))
      case _ => Malformed
  }

  // ---------------------------------------------------------------------
  // What the reader accepts, exactly.

  /** `v` holds, under the same keys, the type and every parameter of the
      object written for `m`; other members of `v` are never read. */
  ghost predicate Carries(v: Json, m: Msg)
  {
    var e := Encode(m);
    var want := e.fields["parameters"].fields;
    v.JObject? && "type" in v.fields && v.fields["type"] == e.fields["type"] &&
    "parameters" in v.fields && v.fields["parameters"].JObject? &&
    forall k :: k in want ==> k in v.fields["parameters"].fields && v.fields["parameters"].fields[k] == want[k]
  }

  /** The listener reads `m` out of `v` exactly when `v` carries the object
      the builders write for `m`: extra members are ignored, and every member
      the builder writes is needed. */
  lemma DecodeExactlyCarries(v: Json, m: Msg)
    ensures Decode(v) == Decoded(m) <==> Carries(v, m)
  {
  }

  /** The key names of ACCEPT and LEAVE differ in the port: an ACCEPT's
      parameter block sent under the LEAVE tag cannot be read, nor the
      converse. */
  lemma LeaveAndAcceptKeysDiffer(ip: string, port: int)
    ensures Decode(Envelope("LEAVE", CreateAcceptMsg(ip, port).fields["parameters"].fields)) == Malformed
    ensures Decode(Envelope("ACCEPT", CreateLeaveMsg(ip, port).fields["parameters"].fields)) == Malformed
  {
  }
}
