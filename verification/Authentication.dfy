/**
 The digest handshake: the server's challenge, the client's answer, the server's check
 (the form without qop of sections 3.2.2.1 to 3.2.2.3 of RFC 2617). The hash is a parameter.
*/
module Authentication {
  import opened Collections
  import opened Strings

  const REALM := "user@TheOnionBox"
  const SCHEME := "TheOnionBox"

  // ---- shared: the digest itself

  function DigestResponse(md5: string -> string, id: string, realm: string, password: string,
                          httpMethod: string, uri: string, nonce: string): string
  {
    var ha1 := md5(id + ":" + realm + ":" + password);
    var ha2 := md5(httpMethod + ":" + uri);
    md5(ha1 + ":" + nonce + ":" + ha2)
  }

  // ---- the client reads the challenge

  // An item key=value; None when it does not split into two.
  function ItemPair(item: string): Option<(string, string)>
  {
    var data := Split(Split(item, ",")[0], "=");
    if |data| == 2 then Some((data[0], data[1])) else None
  }

  // The last item with the key.
  function Lookup(items: seq<string>, key: string): Option<string>
  {
    if items == [] then None
    else
      var p := ItemPair(items[|items| - 1]);
      if p.Some? && p.value.0 == key then Some(p.value.1) else Lookup(items[..|items| - 1], key)
  }

  lemma LookupNone(items: seq<string>)
    ensures forall key :: Lookup(items[..0], key) == None
  {
  }

  lemma LookupNext(items: seq<string>, i: nat, key: string)
    requires i < |items|
    ensures var p := ItemPair(items[i]);
            Lookup(items[..i + 1], key)
            == if p.Some? && p.value.0 == key then Some(p.value.1) else Lookup(items[..i], key)
  {
    assert items[..i + 1][..|items[..i + 1]| - 1] == items[..i];
  }

  // What string concatenation makes of a variable that was never set.
  function Shown(o: Option<string>): string { if o.Some? then o.value else "undefined" }

  datatype ClientResult = Null | Throws | Header(text: string)

  function Quoted(key: string, value: string): string { key + "=\"" + value + "\"" }

  // The items of the answer without qop.
  function AnswerItems(username: string, realm: string, nonce: string, uri: string, response: string): string
  {
    Join([Quoted("username", username), Quoted("realm", realm), Quoted("nonce", nonce),
          Quoted("uri", uri), Quoted("response", response)], ", ")
  }

  // What follows them with qop; the quote behind its value has no partner.
  function QopItems(opaqueToken: string, qop: string, cnonce: string, nc: nat): string
  {
    ", " + Quoted("opaque", opaqueToken) + ", qop=" + qop + "\", nc=" + EightDigits(nc) + ", "
        + Quoted("cnonce", cnonce)
  }

  function QopResponse(md5: string -> string, id: string, realm: string, password: string,
                       httpMethod: string, uri: string, nonce: string, qop: string, cnonce: string, nc: nat): string
  {
    var ha1 := md5(id + ":" + realm + ":" + password);
    var ha2 := md5(httpMethod + ":" + uri);
    md5(ha1 + ":" + nonce + ":" + EightDigits(nc) + ":" + cnonce + ":" + qop + ":" + ha2)
  }

  // ("00000000" + n).slice(-8)
  function EightDigits(n: nat): string
  {
    var s := "00000000" + Decimal(n);
    s[|s| - 8..]
  }

  /** What `create_auth_header` returns, with nc as it is after the call. */
  function Answer(md5: string -> string, header: string, httpMethod: string, url: string,
                  username: string, password: string, cnonce: string, nc: nat): ClientResult
  {
    var headers := Split(header, ", ");
    if |headers| == 1 then Null
    else
      var hh := Split(headers[0], " ");
      if |hh| < 2 then Throws
      else
        var items := headers[0 := hh[1]];
        var realm, nonce, qop := Shown(Lookup(items, "realm")), Shown(Lookup(items, "nonce")), Lookup(items, "qop");
        if qop.Some? && qop.value != "" then
          var response := QopResponse(md5, username, realm, password, httpMethod, url, nonce, qop.value, cnonce, nc);
          Header(hh[0] + " " + AnswerItems(username, realm, nonce, url, response)
                 + QopItems(Shown(Lookup(items, "opaque")), qop.value, cnonce, nc))
        else
          var response := DigestResponse(md5, username, realm, password, httpMethod, url, nonce);
          Header(hh[0] + " " + AnswerItems(username, realm, nonce, url, response))
  }

  class Digest {
    const header: string
    const httpMethod: string
    const url: string
    var nc: nat

    constructor (header: string, httpMethod: string, url: string)
      ensures this.header == header && this.httpMethod == httpMethod && this.url == url && nc == 1
    {
      this.header, this.httpMethod, this.url, nc := header, httpMethod, url, 1;
    }

    /** `create_auth_header`; cnonce is what generate_client_nonce drew. */
    method CreateAuthHeader(md5: string -> string, username: string, password: string, cnonce: string)
      returns (r: ClientResult)
      modifies this`nc
      ensures nc == old(nc) + if r.Header? then 1 else 0
      ensures r == Answer(md5, header, httpMethod, url, username, password, cnonce, old(nc) + 1)
    {
      hide Split, DigestResponse, QopResponse, AnswerItems, QopItems, Lookup;
      var headers := Split(header, ", ");
      if |headers| == 1 { return Null; }
      var hh := Split(headers[0], " ");
      if |hh| < 2 { return Throws; }   // hh[1] is undefined and has no split
      var authMethod := hh[0];
      headers := headers[0 := hh[1]];
      var realm, nonce, opaqueToken, qop: Option<string> := None, None, None, None;
      var i := 0;
      LookupNone(headers);
      while i < |headers|
        invariant 0 <= i <= |headers| && nc == old(nc)
        invariant realm == Lookup(headers[..i], "realm") && nonce == Lookup(headers[..i], "nonce")
        invariant opaqueToken == Lookup(headers[..i], "opaque") && qop == Lookup(headers[..i], "qop")
      {
        LookupNext(headers, i, "realm");
        LookupNext(headers, i, "nonce");
        LookupNext(headers, i, "opaque");
        LookupNext(headers, i, "qop");
        var item := Split(headers[i], ",")[0];
        var data := Split(item, "=");
        i := i + 1;
        if |data| != 2 { continue; }
        if data[0] == "realm" {
          realm := Some(data[1]);
        } else if data[0] == "nonce" {
          nonce := Some(data[1]);
        } else if data[0] == "opaque" {
          opaqueToken := Some(data[1]);
        } else if data[0] == "qop" {
          qop := Some(data[1]);
        }
      }
      assert headers[..|headers|] == headers;
      nc := nc + 1;
      var start := authMethod + " ";
      if qop.Some? && qop.value != "" {
        var response := QopResponse(md5, username, Shown(realm), password, httpMethod, url, Shown(nonce), qop.value,
            cnonce, nc);
        return Header(start + AnswerItems(username, Shown(realm), Shown(nonce), url, response)
                      + QopItems(Shown(opaqueToken), qop.value, cnonce, nc));
      }
      var response := DigestResponse(md5, username, Shown(realm), password, httpMethod, url, Shown(nonce));
      return Header(start + AnswerItems(username, Shown(realm), Shown(nonce), url, response));
    }
  }

  // ---- the server

  // The challenge of a refused request.
  function Challenge(nonce: string, opaqueToken: string): string
  {
    Join([SCHEME + " realm=" + REALM, "nonce=" + nonce, "opaque=" + opaqueToken], ", ")
  }

  // header.split(None, 1) into exactly two; None where Python raises.
  function SchemeAndData(header: string): Option<(string, string)>
  {
    var text := TrimLeft(header);
    var data := TrimLeft(text[WordEnd(text)..]);
    if text == "" || data == "" then None else Some((text[..WordEnd(text)], data))
  }

  // item[:-1].split('="') into exactly two; None where dict() raises.
  function FieldOf(item: string): Option<(string, string)>
  {
    var parts := Split(if item == "" then "" else item[..|item| - 1], "=\"");
    if |parts| == 2 then Some((parts[0], parts[1])) else None
  }

  function FieldsOf(items: seq<string>): Option<map<string, string>>
  {
    if items == [] then Some(map[])
    else
      var f, m := FieldOf(items[|items| - 1]), FieldsOf(items[..|items| - 1]);
      if f.None? || m.None? then None else Some(m.value[f.value.0 := f.value.1])
  }

  function ParseData(data: string): Option<map<string, string>> { FieldsOf(Split(data, ", ")) }

  /** The answer carries the right digest for this session and password. */
  predicate Accepts(md5: string -> string, id: string, nonce: string, password: string, header: string,
                    httpMethod: string)
  {
    var sd := SchemeAndData(header);
    sd.Some? && sd.value.0 == SCHEME
    && var fields := ParseData(sd.value.1);
       fields.Some? && "uri" in fields.value && "response" in fields.value
       && fields.value["response"] == DigestResponse(md5, id, REALM, password, httpMethod, fields.value["uri"], nonce)
  }

  // '{}'.format of a session's entry
  function Formatted(entry: Option<string>): string { if entry.Some? then entry.value else "None" }

  datatype Outcome = Granted(password: string) | Refused(challenge: string)

  class Session {
    const id: string
    var nonce: Option<string>         // None before the first challenge
    var opaqueToken: Option<string>

    constructor (id: string)
      ensures this.id == id && nonce == None && opaqueToken == None
    {
      this.id, nonce, opaqueToken := id, None, None;
    }

    /**
     `authenticate` for a digest session. Anything that does not parse is refused like a
     wrong answer, and every refusal issues a fresh nonce. `accepted` is what the node's
     own authentication says; the two uuids are drawn by the caller.
    */
    method Authenticate(md5: string -> string, password: string, header: string, httpMethod: string,
                        accepted: bool, uuid1: string, uuid4: string) returns (r: Outcome)
      modifies this`nonce, this`opaqueToken
      ensures if Accepts(md5, id, Formatted(old(nonce)), password, header, httpMethod) && accepted
              then r == Granted(password) && nonce == old(nonce) && opaqueToken == old(opaqueToken)
              else r == Refused(Challenge(uuid1, uuid4)) && nonce == Some(uuid1) && opaqueToken == Some(uuid4)
    {
      hide SchemeAndData, ParseData, DigestResponse;
      var raiseLogin := true;
      if header != "" {
        var sd := SchemeAndData(header);
        if sd.Some? && sd.value.0 == SCHEME {
          var requestData := ParseData(sd.value.1);
          if requestData.Some? && "uri" in requestData.value && "response" in requestData.value {
            var response := DigestResponse(md5, id, REALM, password, httpMethod, requestData.value["uri"],
                Formatted(nonce));
            if response == requestData.value["response"] && accepted {
              raiseLogin := false;
            }
          }
        }
      }
      assert header == "" ==> SchemeAndData(header).None? by { NothingToSplit(); }
      if raiseLogin {
        nonce := Some(uuid1);
        opaqueToken := Some(uuid4);
        return Refused(Challenge(uuid1, uuid4));
      }
      return Granted(password);
    }
  }

  lemma NothingToSplit()
    ensures SchemeAndData("") == None
  {
  }

  // ---- the round trip

  // Free of the two delimiters that the server splits at.
  predicate Clean(v: string) { Free(v, ", ") && Free(v, "=\"") }

  // A key of an item: no character of a delimiter.
  predicate IsKey(key: string) { ',' !in key && '=' !in key }

  lemma QuotedIsField(key: string, v: string)
    requires IsKey(key) && Clean(v)
    ensures FieldOf(Quoted(key, v)) == Some((key, v)) && Free(Quoted(key, v), ", ")
  {
    var item := Quoted(key, v);
    assert item[..|item| - 1] == key + "=\"" + v;
    CharFree(key, "=\"", '=');
    SplitSeam(key, "=\"", v);
    assert Split(v, "=\"") == [v];
    CharFree(key + "=\"", ", ", ',');
    FreeConcat(key + "=\"", v, ", ");
    CharFree("\"", ", ", ',');
    FreeConcat(key + "=\"" + v, "\"", ", ");
  }

  /** The server reads back what the client wrote. */
  lemma AnswerParses(u: string, realm: string, nonce: string, uri: string, response: string)
    requires Clean(u) && Clean(realm) && Clean(nonce) && Clean(uri) && Clean(response)
    ensures ParseData(AnswerItems(u, realm, nonce, uri, response))
         == Some(map["username" := u, "realm" := realm, "nonce" := nonce, "uri" := uri, "response" := response])
  {
    hide FieldOf, Quoted, FieldsOf, Clean, Split;
    var q1, q2, q3, q4, q5 := Quoted("username", u), Quoted("realm", realm), Quoted("nonce", nonce),
                              Quoted("uri", uri), Quoted("response", response);
    QuotedIsField("username", u);
    QuotedIsField("realm", realm);
    QuotedIsField("nonce", nonce);
    QuotedIsField("uri", uri);
    QuotedIsField("response", response);
    SplitJoin([q1, q2, q3, q4, q5], ", ");
    NoFields();
    var i1 := [] + [q1];
    var i2 := i1 + [q2];
    var i3 := i2 + [q3];
    var i4 := i3 + [q4];
    FieldsSnoc([], q1);
    FieldsSnoc(i1, q2);
    FieldsSnoc(i2, q3);
    FieldsSnoc(i3, q4);
    FieldsSnoc(i4, q5);
    assert i4 + [q5] == [q1, q2, q3, q4, q5];
  }

  lemma NoFields()
    ensures FieldsOf([]) == Some(map[])
  {
  }

  lemma FieldsSnoc(items: seq<string>, q: string)
    requires FieldsOf(items).Some? && FieldOf(q).Some?
    ensures FieldsOf(items + [q]) == Some(FieldsOf(items).value[FieldOf(q).value.0 := FieldOf(q).value.1])
  {
    assert (items + [q])[..|items + [q]| - 1] == items;
  }

  // No value that the server reads contains a delimiter.
  lemma {:induction false} FieldsAreClean(items: seq<string>, key: string)
    requires forall i :: 0 <= i < |items| ==> Free(items[i], ", ")
    requires FieldsOf(items).Some? && key in FieldsOf(items).value
    ensures Clean(FieldsOf(items).value[key])
  {
    hide Split, Free;
    var item, init := items[|items| - 1], items[..|items| - 1];
    var f, m := FieldOf(item), FieldsOf(init);
    if f.value.0 == key {
      var text := if item == "" then "" else item[..|item| - 1];
      assert Free(text, ", ") by {
        if item != "" { FreePart(item, 0, |item| - 1, ", "); assert item[0..|item| - 1] == text; }
      }
      SplitParts(text, "=\"", 1, ", ");
    } else {
      FieldsAreClean(init, key);
    }
  }

  /** The uri comes back as it was sent exactly when it is free of both delimiters. */
  lemma UriComesBack(u: string, realm: string, nonce: string, uri: string, response: string)
    requires Clean(u) && Clean(realm) && Clean(nonce) && Clean(response)
    ensures var m := ParseData(AnswerItems(u, realm, nonce, uri, response));
            (m.Some? && "uri" in m.value && m.value["uri"] == uri) <==> Clean(uri)
  {
    hide Clean, FieldsOf, Split, AnswerItems;
    var data := AnswerItems(u, realm, nonce, uri, response);
    var items := Split(data, ", ");
    if Clean(uri) {
      AnswerParses(u, realm, nonce, uri, response);
    } else {
      forall i | 0 <= i < |items| ensures Free(items[i], ", ") { SplitParts(data, ", ", i, ", "); }
      var m := FieldsOf(items);
      if m.Some? && "uri" in m.value { FieldsAreClean(items, "uri"); }
    }
  }

  lemma SchemeIsWord()
    ensures forall i :: 0 <= i < |SCHEME| ==> !IsSpace(SCHEME[i])
  {
    assert forall i :: 0 <= i < |SCHEME| ==> 'A' <= SCHEME[i] <= 'z';
  }

  // A first word and what follows the blank behind it.
  lemma SchemeTaken(scheme: string, data: string)
    requires scheme != "" && forall i :: 0 <= i < |scheme| ==> !IsSpace(scheme[i])
    requires data != "" && !IsSpace(data[0])
    ensures SchemeAndData(scheme + " " + data) == Some((scheme, data))
  {
    var text, rest := scheme + " " + data, " " + data;
    assert text == scheme + rest;
    assert text[0] == scheme[0];
    assert TrimLeft(text) == text;
    WordEndAt(scheme, rest);
    assert text[..|scheme|] == scheme && text[|scheme|..] == rest;
    assert rest[1..] == data;
    assert TrimLeft(rest) == data;
  }

  lemma AnswerScheme(data: string)
    requires data != "" && !IsSpace(data[0])
    ensures SchemeAndData(SCHEME + " " + data) == Some((SCHEME, data))
  {
    hide SchemeAndData;
    SchemeIsWord();
    SchemeTaken(SCHEME, data);
  }

  /** An answer of another scheme is refused, whatever it says. */
  lemma OtherScheme(md5: string -> string, id: string, nonce: string, password: string, httpMethod: string,
                    scheme: string, data: string)
    requires scheme != "" && (forall i :: 0 <= i < |scheme| ==> !IsSpace(scheme[i])) && scheme != "TheOnionBox"
    requires data != "" && !IsSpace(data[0])
    ensures !Accepts(md5, id, nonce, password, scheme + " " + data, httpMethod)
  {
    hide SchemeAndData;
    SchemeTaken(scheme, data);
  }

  /** What is no challenge for a digest: without items there is no answer, and one word in front fails. */
  lemma NoAnswer(md5: string -> string, first: string, rest: string, httpMethod: string, url: string,
                 username: string, password: string, cnonce: string, nc: nat)
    requires Free(first, ", ") && ' ' !in first
    ensures Answer(md5, first, httpMethod, url, username, password, cnonce, nc) == Null
    ensures Answer(md5, first + ", " + rest, httpMethod, url, username, password, cnonce, nc) == Throws
  {
    hide Split, Lookup, DigestResponse, QopResponse, AnswerItems, QopItems;
    SplitFree(first, ", ");
    SplitSeam(first, ", ", rest);
    FreeOfChar(first, ' ');
    SplitFree(first, " ");
  }

  // ---- reading the challenge

  lemma KeyItem(key: string, v: string)
    requires IsKey(key)
    ensures ',' !in v && '=' !in v ==> ItemPair(key + "=" + v) == Some((key, v))
    ensures ',' !in v && ItemPair(key + "=" + v).Some? ==> ItemPair(key + "=" + v).value.0 == key
  {
    var item := key + "=" + v;
    FreeOfChar(key, '=');
    SplitSeam(key, "=", v);
    if ',' !in v {
      FreeOfChar(item, ',');
      assert Split(item, ",") == [item];
      FreeOfChar(v, '=');
      if '=' !in v { assert Split(v, "=") == [v]; }
    }
  }

  // What is read from an item contains neither a comma nor an equals sign.
  lemma PairIsPlain(item: string)
    requires ItemPair(item).Some?
    ensures ',' !in ItemPair(item).value.1 && '=' !in ItemPair(item).value.1
  {
    var part := Split(item, ",")[0];
    SplitParts(item, ",", 0, ",");
    SplitParts(part, "=", 1, ",");
    FreeOfChar(Split(part, "=")[1], ',');
    FreeOfChar(Split(part, "=")[1], '=');
  }

  lemma {:induction false} LookupIsPlain(items: seq<string>, key: string)
    ensures Lookup(items, key).Some? ==> ',' !in Lookup(items, key).value && '=' !in Lookup(items, key).value
  {
    if items != [] {
      if ItemPair(items[|items| - 1]).Some? { PairIsPlain(items[|items| - 1]); }
      LookupIsPlain(items[..|items| - 1], key);
    }
  }

  lemma ChallengeSplits(nonce: string, opaqueToken: string)
    requires ',' !in nonce && ',' !in opaqueToken
    ensures Split(Challenge(nonce, opaqueToken), ", ")
            == [SCHEME + " realm=" + REALM, "nonce=" + nonce, "opaque=" + opaqueToken]
    ensures Split(SCHEME + " realm=" + REALM, " ") == [SCHEME, "realm=" + REALM]
  {
    hide Find, At, Split;
    var a, b, c := SCHEME + " realm=" + REALM, "nonce=" + nonce, "opaque=" + opaqueToken;
    CharFree(a, ", ", ',');
    CharFree(b, ", ", ',');
    CharFree(c, ", ", ',');
    SplitJoin([a, b, c], ", ");
    assert a == SCHEME + " " + ("realm=" + REALM);
    CharFree(SCHEME, " ", ' ');
    CharFree("realm=" + REALM, " ", ' ');
    SplitJoin([SCHEME, "realm=" + REALM], " ");
    assert [SCHEME, "realm=" + REALM][1..] == ["realm=" + REALM];
  }

  lemma ThreeItems(items: seq<string>, key: string)
    requires |items| == 3
    ensures Lookup(items, key)
         == if ItemPair(items[2]).Some? && ItemPair(items[2]).value.0 == key then Some(ItemPair(items[2]).value.1)
            else if ItemPair(items[1]).Some? && ItemPair(items[1]).value.0 == key then Some(ItemPair(items[1]).value.1)
            else if ItemPair(items[0]).Some? && ItemPair(items[0]).value.0 == key then Some(ItemPair(items[0]).value.1)
            else None
  {
    hide ItemPair;
    var two, one := items[..2], items[..1];
    assert items[..|items| - 1] == two && two[..|two| - 1] == one && one[..|one| - 1] == [];
    assert two[1] == items[1] && one[0] == items[0];
    LookupLast(items, key);
    LookupLast(two, key);
    LookupLast(one, key);
  }

  lemma LookupLast(items: seq<string>, key: string)
    requires items != []
    ensures var p := ItemPair(items[|items| - 1]);
            Lookup(items, key)
            == if p.Some? && p.value.0 == key then Some(p.value.1) else Lookup(items[..|items| - 1], key)
    ensures Lookup([], key) == None
  {
  }

  // The items that the client looks through.
  function ClientItems(header: string): seq<string>
  {
    var headers := Split(header, ", ");
    var hh := Split(headers[0], " ");
    headers[0 := if |hh| < 2 then "" else hh[1]]
  }

  /** The client reads the server's realm, no qop, and the nonce if it is a plain token. */
  lemma ChallengeRead(nonce: string, opaqueToken: string)
    requires ',' !in nonce && '=' !in nonce && ',' !in opaqueToken
    ensures var items := ClientItems(Challenge(nonce, opaqueToken));
            |Split(Challenge(nonce, opaqueToken), ", ")| > 1
            && Split(Split(Challenge(nonce, opaqueToken), ", ")[0], " ") == [SCHEME, "realm=" + REALM]
            && Lookup(items, "realm") == Some(REALM) && Lookup(items, "nonce") == Some(nonce)
            && Lookup(items, "qop") == None
  {
    hide ItemPair, Split, Lookup, Challenge, ClientItems;
    ChallengeSplits(nonce, opaqueToken);
    ChallengeItems(nonce, opaqueToken);
    var items := ClientItems(Challenge(nonce, opaqueToken));
    KeyItem("realm", REALM);
    KeyItem("nonce", nonce);
    KeyItem("opaque", opaqueToken);
    ThreeItems(items, "realm");
    ThreeItems(items, "nonce");
    ThreeItems(items, "qop");
  }

  lemma ChallengeItems(nonce: string, opaqueToken: string)
    requires ',' !in nonce && ',' !in opaqueToken
    ensures ClientItems(Challenge(nonce, opaqueToken))
            == ["realm" + "=" + REALM, "nonce" + "=" + nonce, "opaque" + "=" + opaqueToken]
  {
    hide Split, Challenge;
    ChallengeSplits(nonce, opaqueToken);
    assert "realm=" == "realm" + "=" && "nonce=" == "nonce" + "=" && "opaque=" == "opaque" + "=";
  }

  /** The nonce is read as it was issued exactly when it contains no comma and no equals sign. */
  lemma NonceReadIffPlain(nonce: string, opaqueToken: string)
    requires ',' !in opaqueToken
    ensures Lookup(ClientItems(Challenge(nonce, opaqueToken)), "nonce") == Some(nonce)
            <==> ',' !in nonce && '=' !in nonce
  {
    hide ItemPair, Split, Lookup;
    if ',' !in nonce && '=' !in nonce {
      ChallengeRead(nonce, opaqueToken);
    }
    LookupIsPlain(ClientItems(Challenge(nonce, opaqueToken)), "nonce");
  }

  // The answer to a challenge, as text.
  lemma AnswerIs(md5: string -> string, id: string, nonce: string, opaqueToken: string, httpMethod: string, uri: string,
                 password: string, cnonce: string, nc: nat)
    requires ',' !in nonce && '=' !in nonce && ',' !in opaqueToken
    ensures var response := DigestResponse(md5, id, REALM, password, httpMethod, uri, nonce);
            Answer(md5, Challenge(nonce, opaqueToken), httpMethod, uri, id, password, cnonce, nc)
            == Header(SCHEME + " " + AnswerItems(id, REALM, nonce, uri, response))
  {
    hide Split, Lookup, AnswerItems, Challenge, DigestResponse;
    ChallengeRead(nonce, opaqueToken);
  }

  /**
   The handshake: for a session id and a uri without the delimiters, the answer to a
   challenge is accepted, at whatever session, exactly when the digest that the server
   computes there agrees with the client's.
  */
  lemma HandshakeSucceeds(md5: string -> string, id: string, nonce: string, opaqueToken: string, httpMethod: string,
                          uri: string, password: string, cnonce: string, nc: nat,
                          serverId: string, serverNonce: string, serverMethod: string, serverPassword: string)
    requires ',' !in nonce && '=' !in nonce && ',' !in opaqueToken
    requires Clean(id) && Clean(uri) && forall s :: Clean(md5(s))
    ensures var r := Answer(md5, Challenge(nonce, opaqueToken), httpMethod, uri, id, password, cnonce, nc);
            r.Header?
            && (Accepts(md5, serverId, serverNonce, serverPassword, r.text, serverMethod)
                <==> DigestResponse(md5, id, REALM, password, httpMethod, uri, nonce)
                     == DigestResponse(md5, serverId, REALM, serverPassword, serverMethod, uri, serverNonce))
  {
    hide Answer, AnswerItems, SchemeAndData, ParseData, Clean, Challenge, DigestResponse;
    var response := DigestResponse(md5, id, REALM, password, httpMethod, uri, nonce);
    assert Clean(response) by { DigestIsHash(md5, id, REALM, password, httpMethod, uri, nonce); }
    AnswerIs(md5, id, nonce, opaqueToken, httpMethod, uri, password, cnonce, nc);
    TokensAreClean(nonce);
    AnswerParses(id, REALM, nonce, uri, response);
    AnswerStarts(id, REALM, nonce, uri, response);
    AnswerScheme(AnswerItems(id, REALM, nonce, uri, response));
  }

  /** Section 3.2.2 of RFC 2617: the digest without qop, and with qop=auth. */
  lemma DigestIsHash(md5: string -> string, id: string, realm: string, password: string, httpMethod: string,
                     uri: string, nonce: string)
    ensures DigestResponse(md5, id, realm, password, httpMethod, uri, nonce)
         == md5(md5(id + ":" + realm + ":" + password) + ":" + nonce + ":" + md5(httpMethod + ":" + uri))
  {
  }

  lemma TokensAreClean(nonce: string)
    requires ',' !in nonce && '=' !in nonce
    ensures Clean(nonce) && Clean(REALM)
  {
    hide Find, At;
    CharFree(nonce, ", ", ',');
    CharFree(nonce, "=\"", '=');
    CharFree(REALM, ", ", ',');
    CharFree(REALM, "=\"", '=');
  }

  lemma AnswerStarts(u: string, realm: string, nonce: string, uri: string, response: string)
    ensures var data := AnswerItems(u, realm, nonce, uri, response); data != "" && data[0] == 'u'
  {
  }
}
