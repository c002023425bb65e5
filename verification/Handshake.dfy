/**
 The digest handshake with the real hash: the client's md5 of a string and the server's
 md5 of its UTF-8 encoding are one function, and its values pass both parsers.
*/
module Handshake {
  import opened Authentication
  import opened Collections
  import opened DigestBinding
  import JsNumbers
  import Md5
  import Rfc1321
  import Utf8

  function Codes(s: string): (cs: seq<Utf8.Code>)
    ensures Utf8.AllScalars(cs)
  {
    seq(|s|, i requires 0 <= i < |s| => s[i] as int)
  }

  // The server: md5(s.encode('utf-8')).hexdigest()
  function HexDigest(s: string): string
  {
    Md5.HexString(Rfc1321.Md5(Utf8.EncodeAll(Codes(s))))
  }

  // A character as JavaScript keeps it.
  function UnitsOf(c: Utf8.Code): (u: seq<Utf8.Unit>)
    requires Utf8.IsScalar(c)
  {
    if c < 0x1_0000 then [c] else [0xd800 + (c - 0x1_0000) / 0x400, 0xdc00 + (c - 0x1_0000) % 0x400]
  }

  function Units(cs: seq<Utf8.Code>): seq<Utf8.Unit>
    requires Utf8.AllScalars(cs)
  {
    if cs == [] then [] else UnitsOf(cs[0]) + Units(cs[1..])
  }

  lemma {:induction false} UnitsAreTheCharacters(cs: seq<Utf8.Code>)
    requires Utf8.AllScalars(cs)
    ensures Utf8.WellFormed(Units(cs)) && Utf8.Characters(Units(cs)) == cs
  {
    if cs != [] {
      var c, rest := cs[0], Units(cs[1..]);
      UnitsAreTheCharacters(cs[1..]);
      assert Utf8.IsScalar(c);
      if c < 0x1_0000 {
        assert Units(cs)[1..] == rest;
      } else {
        assert Units(cs)[2..] == rest;
      }
    }
  }

  /** The client: md5(s) of a JavaScript string is what the server computes. */
  method ClientMd5(memory: array<JsNumbers.Octet>, s: string) returns (h: string)
    requires memory.Length == 68
    modifies memory
    ensures h == HexDigest(s)
  {
    hide Rfc1321.Md5, Md5.HexString, Utf8.EncodeAll;
    UnitsAreTheCharacters(Codes(s));
    h := Md5.HexMd5(memory, Md5.Text(Units(Codes(s))));
  }

  lemma DigestIsClean(s: string)
    ensures Clean(HexDigest(s)) && ':' !in HexDigest(s)
  {
    hide Rfc1321.Md5, Utf8.EncodeAll;
    var h := HexDigest(s);
    assert ',' !in Md5.HEX_CHARS && '=' !in Md5.HEX_CHARS && ':' !in Md5.HEX_CHARS;
    hide Clean;
    TokensAreClean(h);
  }

  /**
   With the real hash, the answer to a challenge is accepted for the same password; and if it
   is accepted where anything else was meant, two strings with the same digest have been found.
  */
  lemma AcceptedOrCollision(id: string, nonce: string, opaqueToken: string, httpMethod: string, uri: string,
                            password: string, cnonce: string, nc: nat,
                            serverId: string, serverNonce: string, serverMethod: string, serverPassword: string)
    requires ',' !in nonce && '=' !in nonce && ',' !in opaqueToken && Clean(id) && Clean(uri)
    requires ':' !in id && ':' !in serverId && ':' !in httpMethod && ':' !in serverMethod
    ensures var r := Answer(HexDigest, Challenge(nonce, opaqueToken), httpMethod, uri, id, password, cnonce, nc);
            r.Header?
            && if serverId == id && serverNonce == nonce && serverMethod == httpMethod && serverPassword == password
               then Accepts(HexDigest, serverId, serverNonce, serverPassword, r.text, serverMethod)
               else Accepts(HexDigest, serverId, serverNonce, serverPassword, r.text, serverMethod) ==>
                 exists x, y :: x != y && HexDigest(x) == HexDigest(y)
  {
    hide HexDigest, Answer, Accepts, Challenge;
    forall s ensures Clean(HexDigest(s)) && ':' !in HexDigest(s) { DigestIsClean(s); }
    AcceptedIffMeant(HexDigest, id, nonce, opaqueToken, httpMethod, uri, password, cnonce, nc,
                     serverId, serverNonce, serverMethod, serverPassword);
    if exists x, y :: x != y && HexDigest(x) == HexDigest(y) {
    } else {
      assert !Collides(HexDigest);
    }
  }

  /** The answer to a fresh challenge is accepted when client and server have the same password. */
  lemma SamePasswordIsAccepted(id: string, nonce: string, opaqueToken: string, httpMethod: string, uri: string,
                               password: string, cnonce: string, nc: nat)
    requires ',' !in nonce && '=' !in nonce && ',' !in opaqueToken && Clean(id) && Clean(uri)
    ensures var r := Answer(HexDigest, Challenge(nonce, opaqueToken), httpMethod, uri, id, password, cnonce, nc);
            r.Header? && Accepts(HexDigest, id, nonce, password, r.text, httpMethod)
  {
    hide HexDigest, Answer, Accepts;
    forall s ensures Clean(HexDigest(s)) { DigestIsClean(s); }
    HandshakeSucceeds(HexDigest, id, nonce, opaqueToken, httpMethod, uri, password, cnonce, nc,
                      id, nonce, httpMethod, password);
  }

  /**
   The login dialog, from its first request to the outcome: the request without an answer is
   refused with a challenge, the client answers it with the password that was typed in, and
   access is granted exactly when this is the node's password.
  */
  method LogIn(session: Session, md5: string -> string, serverPassword: string, typed: string, url: string,
               accepted: bool, cnonce: string, uuids: seq<string>) returns (r: Outcome)
    requires |uuids| == 4 && ',' !in uuids[0] && '=' !in uuids[0] && ',' !in uuids[1]
    requires Clean(session.id) && ':' !in session.id && Clean(url) && PlainHash(md5)
    modifies session
    ensures typed == serverPassword && accepted ==> r == Granted(serverPassword)
    ensures (typed != serverPassword && !Collides(md5)) || !accepted ==>
              r == Refused(Challenge(uuids[2], uuids[3])) && session.nonce == Some(uuids[2])
  {
    hide Answer, Accepts, Challenge, Collides, PlainHash, Clean;
    var first := session.Authenticate(md5, serverPassword, "", "POST", accepted, uuids[0], uuids[1]);
    assert first == Refused(Challenge(uuids[0], uuids[1])) by { EmptyIsRefused(md5, session.id, serverPassword); }
    var auth := new Digest(first.challenge, "POST", url);
    var answer := auth.CreateAuthHeader(md5, session.id, typed, cnonce);
    AcceptedIffMeant(md5, session.id, uuids[0], uuids[1], "POST", url, typed, cnonce, 2,
                     session.id, uuids[0], "POST", serverPassword);
    r := session.Authenticate(md5, serverPassword, answer.text, "POST", accepted, uuids[2], uuids[3]);
  }

  lemma EmptyIsRefused(md5: string -> string, id: string, password: string)
    ensures forall nonce :: !Accepts(md5, id, nonce, password, "", "POST")
  {
    NothingToSplit();
  }
}
