/** The flattened JWS envelope of an ACME request, without its signature check. */
module Jose {
  import opened Wrappers
  import opened Json
  import Base64Url

  datatype PayloadMode = ObjectMode | EmptyMode

  /** The protected header and payload objects a request carries. */
  datatype Jws = Jws(protected: map<string, Json>, payload: map<string, Json>)

  /** `b64url_decode_strict` on a JSON value. */
  function DecodeField(value: Json): Option<Bytes> {
    if value.Str? then Base64Url.DecodeStrict(value.s) else None
  }

  /** `_json_loads_strict` followed by the test that the value is an object. */
  function LoadObject(raw: Bytes): Option<map<string, Json>> {
    match Loads(raw)
    case Some(Obj(fields)) => Some(fields)
    case _ => None
  }

  predicate HasEnvelopeFields(envelope: map<string, Json>) {
    && "protected" in envelope && "payload" in envelope && "signature" in envelope
    && "header" !in envelope && "signatures" !in envelope
  }

  /** `parse_unverified_jws`; `None` where it raises. */
  function ParseJws(raw: Bytes, mode: PayloadMode): Option<Jws> {
    match LoadObject(raw)
    case None => None
    case Some(envelope) => ParseEnvelope(envelope, mode)
  }

  function ParseEnvelope(envelope: map<string, Json>, mode: PayloadMode): Option<Jws> {
    if !HasEnvelopeFields(envelope) then None
    else
      match (DecodeField(envelope["protected"]), DecodeField(envelope["payload"]),
             DecodeField(envelope["signature"]))
      case (Some(protectedRaw), Some(payloadRaw), Some(_)) => ParseParts(protectedRaw, payloadRaw, mode)
      case _ => None
  }

  function ParseParts(protectedRaw: Bytes, payloadRaw: Bytes, mode: PayloadMode): Option<Jws> {
    match LoadObject(protectedRaw)
    case None => None
    case Some(protected) =>
      if mode == EmptyMode then
        if payloadRaw != [] then None else Some(Jws(protected, map[]))
      else if payloadRaw == [] then None
      else
        match LoadObject(payloadRaw)
        case None => None
        case Some(payload) => Some(Jws(protected, payload))
  }

  /** Without one of its three fields, or with a field of another serialization, an envelope is
      refused. */
  lemma EnvelopeRefused(envelope: map<string, Json>, mode: PayloadMode)
    requires || "protected" !in envelope || "payload" !in envelope || "signature" !in envelope
             || "header" in envelope || "signatures" in envelope
    ensures ParseEnvelope(envelope, mode) == None
  {
  }

  /** No other field of an envelope matters. */
  lemma OtherFieldsIgnored(envelope: map<string, Json>, other: map<string, Json>, mode: PayloadMode)
    requires forall name :: name in {"protected", "payload", "signature", "header", "signatures"} ==>
               (name in envelope <==> name in other) && (name in envelope ==> envelope[name] == other[name])
    ensures ParseEnvelope(envelope, mode) == ParseEnvelope(other, mode)
  {
    hide DecodeField, ParseParts;
  }

  /** The object `jws_encode` returns for a serialized header, payload and signature. */
  function JwsEncode(header: Bytes, payload: Bytes, signature: Bytes): map<string, Json> {
    map["protected" := Str(Base64Url.Encode(header)),
        "payload" := Str(if payload == [] then "" else Base64Url.Encode(payload)),
        "signature" := Str(Base64Url.Encode(signature))]
  }

  lemma EnvelopeNames()
    ensures "protected" != "payload" && "protected" != "signature" && "payload" != "signature"
    ensures "header" !in {"protected", "payload", "signature"}
    ensures "signatures" !in {"protected", "payload", "signature"}
  {
    assert "protected"[1] == 'r' && "payload"[1] == 'a' && "signature"[1] == 'i';
    assert "header"[1] == 'e';
    assert |"signatures"| == 10 && |"signature"| == 9 && |"protected"| == 9 && |"payload"| == 7;
  }

  lemma EncodedFields(header: Bytes, payload: Bytes, signature: Bytes)
    ensures var envelope := JwsEncode(header, payload, signature);
            && HasEnvelopeFields(envelope)
            && DecodeField(envelope["protected"]) == Some(header)
            && DecodeField(envelope["payload"]) == Some(payload)
            && DecodeField(envelope["signature"]) == Some(signature)
  {
    hide Base64Url.Encode, Base64Url.DecodeStrict;
    EnvelopeNames();
    Base64Url.StrictInverse(header, Base64Url.Encode(header));
    Base64Url.StrictInverse(payload, Base64Url.Encode(payload));
    Base64Url.StrictInverse(signature, Base64Url.Encode(signature));
    Base64Url.EncodeEmpty(payload);
  }

  /** Parsing a serialized envelope recovers exactly its header and payload; a payload is
      accepted empty only in empty mode and as an object only in object mode. */
  lemma JwsRoundTrip(raw: Bytes, header: Bytes, payload: Bytes, signature: Bytes, mode: PayloadMode)
    requires Loads(raw) == Some(Obj(JwsEncode(header, payload, signature)))
    ensures ParseJws(raw, mode).Some? <==>
            LoadObject(header).Some?
            && if mode == EmptyMode then payload == [] else payload != [] && LoadObject(payload).Some?
    ensures ParseJws(raw, mode).Some? ==>
              && ParseJws(raw, mode).value.protected == LoadObject(header).value
              && ParseJws(raw, mode).value.payload == if mode == EmptyMode then map[] else LoadObject(payload).value
  {
    hide JwsEncode, HasEnvelopeFields, DecodeField;
    EncodedFields(header, payload, signature);
  }

  /** Conversely, whatever is accepted has the three fields `jws_encode` writes for some
      header, payload and signature, so no field has a second accepted spelling. */
  lemma AcceptedIsEncoded(raw: Bytes, mode: PayloadMode)
    requires ParseJws(raw, mode).Some?
    ensures exists header, payload, signature ::
              && JwsEncode(header, payload, signature).Items <= Loads(raw).value.fields.Items
              && LoadObject(header) == Some(ParseJws(raw, mode).value.protected)
              && (mode == ObjectMode ==> LoadObject(payload) == Some(ParseJws(raw, mode).value.payload))
              && (mode == EmptyMode ==> payload == [])
  {
    var envelope := LoadObject(raw).value;
    var header := DecodeField(envelope["protected"]).value;
    var payload := DecodeField(envelope["payload"]).value;
    var signature := DecodeField(envelope["signature"]).value;
    AcceptedFields(envelope, mode, header, payload, signature);
    assert JwsEncode(header, payload, signature).Items <= Loads(raw).value.fields.Items;
  }

  lemma AcceptedFields(envelope: map<string, Json>, mode: PayloadMode, header: Bytes, payload: Bytes, signature: Bytes)
    requires HasEnvelopeFields(envelope)
    requires DecodeField(envelope["protected"]) == Some(header)
    requires DecodeField(envelope["payload"]) == Some(payload)
    requires DecodeField(envelope["signature"]) == Some(signature)
    ensures JwsEncode(header, payload, signature).Items <= envelope.Items
  {
    hide Base64Url.Encode, Base64Url.DecodeStrict;
    EnvelopeNames();
    Base64Url.StrictInverse(header, envelope["protected"].s);
    Base64Url.StrictInverse(payload, envelope["payload"].s);
    Base64Url.StrictInverse(signature, envelope["signature"].s);
    Base64Url.EncodeEmpty(payload);
    var encoded := JwsEncode(header, payload, signature);
    forall item | item in encoded.Items ensures item in envelope.Items {
      assert item.0 in envelope && envelope[item.0] == item.1;
    }
  }
}
