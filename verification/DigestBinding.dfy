/**
 What the digest of the handshake binds: an answer is good for one session id, one nonce,
 one method and one password, unless the hash collides; and the texts that are exchanged.
*/
module DigestBinding {
  import opened Authentication
  import opened Collections
  import opened Strings

  // ---- strings with colons

  lemma FirstColon(a: string, x: string)
    requires ':' !in a
    ensures var s := a + ":" + x;
            s[..|a|] == a && s[|a|] == ':' && s[|a| + 1..] == x && forall k :: 0 <= k < |a| ==> s[k] != ':'
  {
    var s := a + ":" + x;
    forall k | 0 <= k < |a| ensures s[k] != ':' { assert s[k] == a[k]; }
  }

  lemma LastColon(x: string, a: string)
    requires ':' !in a
    ensures var s := x + ":" + a;
            s[..|x|] == x && s[|x|] == ':' && s[|x| + 1..] == a && forall k :: |x| < k < |s| ==> s[k] != ':'
  {
    var s := x + ":" + a;
    forall k | |x| < k < |s| ensures s[k] != ':' { assert s[k] == a[k - |x| - 1]; }
  }

  lemma CutAtFirst(a: string, x: string, b: string, y: string)
    requires ':' !in a && ':' !in b && a + ":" + x == b + ":" + y
    ensures a == b && x == y
  {
    FirstColon(a, x);
    FirstColon(b, y);
    assert |a| == |b|;
  }

  lemma CutAtLast(x: string, a: string, y: string, b: string)
    requires ':' !in a && ':' !in b && x + ":" + a == y + ":" + b
    ensures a == b && x == y
  {
    LastColon(x, a);
    LastColon(y, b);
    assert |x| == |y|;
  }

  // ---- the digest

  ghost predicate Collides(md5: string -> string)
  {
    exists x, y :: x != y && md5(x) == md5(y)
  }

  // The hash has no delimiter of the header and no colon in its values, as hexadecimal digits have none.
  ghost predicate PlainHash(md5: string -> string)
  {
    forall s :: Clean(md5(s)) && ':' !in md5(s)
  }

  lemma SameText(md5: string -> string, x: string, y: string)
    requires md5(x) == md5(y) && !Collides(md5)
    ensures x == y
  {
  }

  /** Equal digests come from equal values, unless the hash collides. */
  lemma DigestBinds(md5: string -> string, id: string, password: string, httpMethod: string, uri: string, nonce: string,
                    id2: string, password2: string, httpMethod2: string, uri2: string, nonce2: string)
    requires PlainHash(md5) && !Collides(md5)
    requires ':' !in id && ':' !in id2 && ':' !in httpMethod && ':' !in httpMethod2
    ensures DigestResponse(md5, id, REALM, password, httpMethod, uri, nonce)
            == DigestResponse(md5, id2, REALM, password2, httpMethod2, uri2, nonce2)
            <==> id == id2 && password == password2 && httpMethod == httpMethod2 && uri == uri2 && nonce == nonce2
  {
    hide Collides, Clean;
    var a, b := md5(id + ":" + REALM + ":" + password), md5(httpMethod + ":" + uri);
    var a2, b2 := md5(id2 + ":" + REALM + ":" + password2), md5(httpMethod2 + ":" + uri2);
    if md5(a + ":" + nonce + ":" + b) == md5(a2 + ":" + nonce2 + ":" + b2) {
      SameText(md5, a + ":" + nonce + ":" + b, a2 + ":" + nonce2 + ":" + b2);
      CutAtLast(a + ":" + nonce, b, a2 + ":" + nonce2, b2);
      CutAtFirst(a, nonce, a2, nonce2);
      SameText(md5, httpMethod + ":" + uri, httpMethod2 + ":" + uri2);
      CutAtFirst(httpMethod, uri, httpMethod2, uri2);
      SameText(md5, id + ":" + REALM + ":" + password, id2 + ":" + REALM + ":" + password2);
      SameUser(id, password, id2, password2);
    }
  }

  lemma SameUser(id: string, password: string, id2: string, password2: string)
    requires ':' !in id && ':' !in id2
    requires id + ":" + REALM + ":" + password == id2 + ":" + REALM + ":" + password2
    ensures id == id2 && password == password2
  {
    hide REALM;
    var rest, rest2 := REALM + ":" + password, REALM + ":" + password2;
    assert id + ":" + REALM + ":" + password == id + ":" + rest;
    assert id2 + ":" + REALM + ":" + password2 == id2 + ":" + rest2;
    CutAtFirst(id, rest, id2, rest2);
    assert rest[|REALM| + 1..] == password && rest2[|REALM| + 1..] == password2;
  }

  // ---- the handshake

  /**
   The answer to a challenge is accepted exactly for the session id, the nonce, the method and
   the password that it was made for, unless the hash collides.
  */
  lemma AcceptedIffMeant(md5: string -> string, id: string, nonce: string, opaqueToken: string, httpMethod: string,
                         uri: string, password: string, cnonce: string, nc: nat,
                         serverId: string, serverNonce: string, serverMethod: string, serverPassword: string)
    requires ',' !in nonce && '=' !in nonce && ',' !in opaqueToken && Clean(id) && Clean(uri)
    requires ':' !in id && ':' !in serverId && ':' !in httpMethod && ':' !in serverMethod
    requires PlainHash(md5)
    ensures var r := Answer(md5, Challenge(nonce, opaqueToken), httpMethod, uri, id, password, cnonce, nc);
            var meant := serverId == id && serverNonce == nonce && serverMethod == httpMethod
                         && serverPassword == password;
            r.Header?
            && (meant ==> Accepts(md5, serverId, serverNonce, serverPassword, r.text, serverMethod))
            && (!Collides(md5) ==>
                  (Accepts(md5, serverId, serverNonce, serverPassword, r.text, serverMethod) <==> meant))
  {
    hide DigestResponse, Answer, Accepts, Challenge, Collides, Clean;
    HandshakeSucceeds(md5, id, nonce, opaqueToken, httpMethod, uri, password, cnonce, nc,
               serverId, serverNonce, serverMethod, serverPassword);
    if !Collides(md5) {
      DigestBinds(md5, id, password, httpMethod, uri, nonce, serverId, serverPassword, serverMethod, uri, serverNonce);
    }
  }

  // ---- the texts

  lemma FiveParts(a: string, b: string, c: string, d: string, e: string)
    ensures Join([a, b, c, d, e], ", ") == a + ", " + b + ", " + c + ", " + d + ", " + e
  {
    var sep := ", ";
    assert Join([e], sep) == e;
    assert Join([d, e], sep) == d + sep + e;
    assert Join([c, d, e], sep) == c + sep + (d + sep + e);
    assert Join([b, c, d, e], sep) == b + sep + (c + sep + (d + sep + e));
    assert Join([a, b, c, d, e], sep) == a + sep + (b + sep + (c + sep + (d + sep + e)));
  }

  lemma ThreeParts(a: string, b: string, c: string)
    ensures Join([a, b, c], ", ") == a + ", " + b + ", " + c
  {
    var sep := ", ";
    assert Join([c], sep) == c;
    assert Join([b, c], sep) == b + sep + c;
    assert Join([a, b, c], sep) == a + sep + (b + sep + c);
  }

  lemma QuotedText(v: string)
    ensures Quoted("username", v) == "username=\"" + v + "\""
    ensures Quoted("realm", v) == "realm=\"" + v + "\""
    ensures Quoted("nonce", v) == "nonce=\"" + v + "\""
    ensures Quoted("uri", v) == "uri=\"" + v + "\""
    ensures Quoted("response", v) == "response=\"" + v + "\""
    ensures Quoted("opaque", v) == "opaque=\"" + v + "\""
    ensures Quoted("cnonce", v) == "cnonce=\"" + v + "\""
  {
    assert "username" + "=\"" == "username=\"" && "realm" + "=\"" == "realm=\"" && "nonce" + "=\"" == "nonce=\"";
    assert "uri" + "=\"" == "uri=\"" && "response" + "=\"" == "response=\"" && "opaque" + "=\"" == "opaque=\"";
    assert "cnonce" + "=\"" == "cnonce=\"";
  }

  lemma ItemsText(id: string, realm: string, nonce: string, uri: string, response: string)
    ensures AnswerItems(id, realm, nonce, uri, response)
         == ("username=\"" + id + "\"") + ", " + ("realm=\"" + realm + "\"") + ", " + ("nonce=\"" + nonce + "\"")
            + ", " + ("uri=\"" + uri + "\"") + ", " + ("response=\"" + response + "\"")
  {
    hide Quoted, Join;
    QuotedText(id);
    QuotedText(realm);
    QuotedText(nonce);
    QuotedText(uri);
    QuotedText(response);
    FiveParts("username=\"" + id + "\"", "realm=\"" + realm + "\"", "nonce=\"" + nonce + "\"",
              "uri=\"" + uri + "\"", "response=\"" + response + "\"");
  }

  /** The challenge, and the answer to it, character by character. */
  lemma AnswerText(md5: string -> string, id: string, nonce: string, opaqueToken: string, httpMethod: string,
                   uri: string, password: string, cnonce: string, nc: nat)
    requires ',' !in nonce && '=' !in nonce && ',' !in opaqueToken
    ensures Challenge(nonce, opaqueToken)
         == "TheOnionBox realm=user@TheOnionBox" + ", " + ("nonce=" + nonce) + ", " + ("opaque=" + opaqueToken)
    ensures var ha1 := md5(id + ":" + "user@TheOnionBox" + ":" + password);
            var response := md5(ha1 + ":" + nonce + ":" + md5(httpMethod + ":" + uri));
            Answer(md5, Challenge(nonce, opaqueToken), httpMethod, uri, id, password, cnonce, nc)
            == Header("TheOnionBox" + " "
                      + (("username=\"" + id + "\"") + ", " + ("realm=\"" + "user@TheOnionBox" + "\"")
                         + ", " + ("nonce=\"" + nonce + "\"") + ", " + ("uri=\"" + uri + "\"")
                         + ", " + ("response=\"" + response + "\"")))
  {
    hide DigestResponse, Answer, AnswerItems, Join;
    assert SCHEME + " realm=" + REALM == "TheOnionBox realm=user@TheOnionBox";
    ThreeParts(SCHEME + " realm=" + REALM, "nonce=" + nonce, "opaque=" + opaqueToken);
    AnswerIs(md5, id, nonce, opaqueToken, httpMethod, uri, password, cnonce, nc);
    DigestIsHash(md5, id, REALM, password, httpMethod, uri, nonce);
    ItemsText(id, REALM, nonce, uri, DigestResponse(md5, id, REALM, password, httpMethod, uri, nonce));
  }

  // ---- with qop

  lemma LookupSnoc(items: seq<string>, key: string, v: string, other: string)
    requires IsKey(key) && ',' !in v && '=' !in v
    ensures Lookup(items + [key + "=" + v], other) == if key == other then Some(v) else Lookup(items, other)
    ensures Lookup([], other) == None
  {
    hide ItemPair;
    KeyItem(key, v);
    var all := items + [key + "=" + v];
    assert all[..|all| - 1] == items;
  }

  // The items of a challenge with qop, as they are read.
  lemma QopRead(realm: string, nonce: string, qop: string, opaqueToken: string)
    requires forall v :: v in {realm, nonce, qop, opaqueToken} ==> ',' !in v && '=' !in v
    ensures var items :=
              ["realm" + "=" + realm, "nonce" + "=" + nonce, "qop" + "=" + qop, "opaque" + "=" + opaqueToken];
            Lookup(items, "realm") == Some(realm) && Lookup(items, "nonce") == Some(nonce)
            && Lookup(items, "qop") == Some(qop) && Lookup(items, "opaque") == Some(opaqueToken)
  {
    hide Lookup, ItemPair;
    var i1 := [] + ["realm" + "=" + realm];
    var i2 := i1 + ["nonce" + "=" + nonce];
    var i3 := i2 + ["qop" + "=" + qop];
    forall key | key in {"realm", "nonce", "qop", "opaque"}
      ensures Lookup(i3 + ["opaque" + "=" + opaqueToken], key)
           == if key == "opaque" then Some(opaqueToken) else if key == "qop" then Some(qop)
              else if key == "nonce" then Some(nonce) else Some(realm)
    {
      LookupSnoc([], "realm", realm, key);
      LookupSnoc(i1, "nonce", nonce, key);
      LookupSnoc(i2, "qop", qop, key);
      LookupSnoc(i3, "opaque", opaqueToken, key);
    }
    assert i3 + ["opaque" + "=" + opaqueToken]
        == ["realm" + "=" + realm, "nonce" + "=" + nonce, "qop" + "=" + qop, "opaque" + "=" + opaqueToken];
  }

  /** A counter of at most eight digits is filled up with zeros from the left. */
  lemma EightDigitsAre(n: nat)
    ensures |EightDigits(n)| == 8
    ensures |Decimal(n)| <= 8 ==> EightDigits(n) == seq(8 - |Decimal(n)|, _ => '0') + Decimal(n)
  {
    hide Decimal;
    var d := Decimal(n);
    var s := "00000000" + d;
    if |d| <= 8 { assert s[|s| - 8..] == seq(8 - |d|, _ => '0') + d; }
  }

  lemma SecondRequest()
    ensures EightDigits(2) == "00000002"
  {
    assert Decimal(2) == "2";
  }

  lemma QopSplits(realm: string, nonce: string, qop: string, opaqueToken: string)
    requires forall v :: v in {realm, nonce, qop, opaqueToken} ==> ',' !in v
    requires ' ' !in realm
    ensures Split(Join(["Digest realm=" + realm, "nonce=" + nonce, "qop=" + qop, "opaque=" + opaqueToken], ", "), ", ")
         == ["Digest realm=" + realm, "nonce=" + nonce, "qop=" + qop, "opaque=" + opaqueToken]
    ensures Split("Digest realm=" + realm, " ") == ["Digest", "realm=" + realm]
  {
    hide Find, At, Split, Join;
    CharFree("Digest realm=" + realm, ", ", ',');
    CharFree("nonce=" + nonce, ", ", ',');
    CharFree("qop=" + qop, ", ", ',');
    CharFree("opaque=" + opaqueToken, ", ", ',');
    SplitJoin(["Digest realm=" + realm, "nonce=" + nonce, "qop=" + qop, "opaque=" + opaqueToken], ", ");
    CharFree("Digest", " ", ' ');
    CharFree("realm=" + realm, " ", ' ');
    TwoParts("Digest", "realm=" + realm);
    SplitJoin(["Digest", "realm=" + realm], " ");
    assert "Digest realm=" + realm == "Digest" + " " + ("realm=" + realm);
  }

  lemma TwoParts(a: string, b: string)
    ensures Join([a, b], " ") == a + " " + b
  {
    assert Join([b], " ") == b;
  }

  /** The answer to a challenge with qop; the quote behind its value is there without a partner. */
  lemma QopAnswerText(md5: string -> string, realm: string, nonce: string, qop: string, opaqueToken: string, id: string,
                      httpMethod: string, uri: string, password: string, cnonce: string, nc: nat)
    requires forall v :: v in {realm, nonce, qop, opaqueToken} ==> ',' !in v && '=' !in v
    requires ' ' !in realm && qop != ""
    ensures var header :=
              Join(["Digest realm=" + realm, "nonce=" + nonce, "qop=" + qop, "opaque=" + opaqueToken], ", ");
            var ha1 := md5(id + ":" + realm + ":" + password);
            var response := md5(ha1 + ":" + nonce + ":" + EightDigits(nc) + ":" + cnonce + ":" + qop + ":"
                                + md5(httpMethod + ":" + uri));
            Answer(md5, header, httpMethod, uri, id, password, cnonce, nc)
            == Header("Digest" + " "
                      + (("username=\"" + id + "\"") + ", " + ("realm=\"" + realm + "\"")
                         + ", " + ("nonce=\"" + nonce + "\"") + ", " + ("uri=\"" + uri + "\"")
                         + ", " + ("response=\"" + response + "\""))
                      + (", " + ("opaque=\"" + opaqueToken + "\"") + ", qop=" + qop + "\", nc=" + EightDigits(nc) + ", "
                         + ("cnonce=\"" + cnonce + "\"")))
  {
    hide Split, Lookup, AnswerItems, Join, Quoted, EightDigits, QopResponse;
    var items := ["Digest realm=" + realm, "nonce=" + nonce, "qop=" + qop, "opaque=" + opaqueToken];
    QopSplits(realm, nonce, qop, opaqueToken);
    QopRead(realm, nonce, qop, opaqueToken);
    assert items[0 := "realm=" + realm]
        == ["realm" + "=" + realm, "nonce" + "=" + nonce, "qop" + "=" + qop, "opaque" + "=" + opaqueToken] by {
      assert "realm" + "=" == "realm=" && "nonce" + "=" == "nonce=" && "qop" + "=" == "qop=";
      assert "opaque" + "=" == "opaque=";
    }
    QopIsHash(md5, id, realm, password, httpMethod, uri, nonce, qop, cnonce, nc);
    ItemsText(id, realm, nonce, uri,
              QopResponse(md5, id, realm, password, httpMethod, uri, nonce, qop, cnonce, nc));
    QuotedText(opaqueToken);
    QuotedText(cnonce);
  }

  lemma QopIsHash(md5: string -> string, id: string, realm: string, password: string, httpMethod: string, uri: string,
                  nonce: string, qop: string, cnonce: string, nc: nat)
    ensures QopResponse(md5, id, realm, password, httpMethod, uri, nonce, qop, cnonce, nc)
         == md5(md5(id + ":" + realm + ":" + password) + ":" + nonce + ":" + EightDigits(nc) + ":" + cnonce + ":" + qop
                + ":" + md5(httpMethod + ":" + uri))
  {
  }
}
