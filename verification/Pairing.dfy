/**
 The pairing protocol (src/nvhttp.cpp): four phases in order on one session, a PIN entered out of band, sessions
 that may be restarted and that are dropped as soon as something goes wrong. The cryptographic primitives are
 unknown functions; `Lawful` says what is used of them.
 */
module Pairing {
  import opened Wrappers

  newtype byte = x: int | 0 <= x < 256

  type Bytes = seq<byte>

  /** What `crypto::rand(16)` gives. */
  type Nonce = b: Bytes | |b| == 16 witness [0, 0, 0, 0, 0, 0, 0, 0, 0, 0, 0, 0, 0, 0, 0, 0]

  /** What SHA-256 gives. */
  type Digest = b: Bytes | |b| == 32
    witness [0, 0, 0, 0, 0, 0, 0, 0, 0, 0, 0, 0, 0, 0, 0, 0, 0, 0, 0, 0, 0, 0, 0, 0, 0, 0, 0, 0, 0, 0, 0, 0]

  // ---------------------------------------------------------------------------------------------------
  // Hexadecimal text (src/utility.h)
  // ---------------------------------------------------------------------------------------------------

  function HexDigit(c: char): Option<int> {
    if '0' <= c <= '9' then Some(c as int - '0' as int)
    else if 'a' <= c <= 'f' then Some(c as int - 'a' as int + 10)
    else if 'A' <= c <= 'F' then Some(c as int - 'A' as int + 10)
    else None
  }

  function HexByte(high: char, low: char): (b: Option<byte>)
    ensures b.Some? <==> HexDigit(high).Some? && HexDigit(low).Some?
  {
    if HexDigit(high).Some? && HexDigit(low).Some? then
      Some((HexDigit(high).value * 16 + HexDigit(low).value) as byte)
    else None
  }

  /** Bytes in the order of the text; no value for an odd length or a character that is no digit. */
  function DecodeHex(text: string): Option<Bytes>
    decreases |text|
  {
    if text == [] then Some([])
    else if |text| == 1 then None
    else
      var first, rest := HexByte(text[0], text[1]), DecodeHex(text[2..]);
      if first.Some? && rest.Some? then Some([first.value] + rest.value) else None
  }

  /** `from_hex_vec`: malformed text reads as no bytes. */
  function HexVec(text: string): Bytes {
    match DecodeHex(text)
    case Some(b) => b
    case None => []
  }

  function DigitOf(n: int): char
    requires 0 <= n < 16
  {
    "0123456789abcdef"[n]
  }

  function EncodeHex(b: Bytes): (text: string)
    ensures |text| == 2 * |b|
  {
    if b == [] then [] else [DigitOf(b[0] as int / 16), DigitOf(b[0] as int % 16)] + EncodeHex(b[1..])
  }

  lemma DigitIsRead(n: int)
    requires 0 <= n < 16
    ensures HexDigit(DigitOf(n)) == Some(n)
  {
    assert n == 0 || n == 1 || n == 2 || n == 3 || n == 4 || n == 5 || n == 6 || n == 7 ||
           n == 8 || n == 9 || n == 10 || n == 11 || n == 12 || n == 13 || n == 14 || n == 15;
  }

  lemma ByteIsRead(b: byte)
    ensures HexByte(DigitOf(b as int / 16), DigitOf(b as int % 16)) == Some(b)
  {
    DigitIsRead(b as int / 16);
    DigitIsRead(b as int % 16);
  }

  lemma {:induction false} HexRoundTrip(b: Bytes)
    ensures DecodeHex(EncodeHex(b)) == Some(b) && HexVec(EncodeHex(b)) == b
  {
    hide HexByte, HexDigit, DigitOf;
    if b != [] {
      ByteIsRead(b[0]);
      HexRoundTrip(b[1..]);
      assert EncodeHex(b)[2..] == EncodeHex(b[1..]);
      assert b == [b[0]] + b[1..];
    }
  }

  /** The text in lower case. */
  function Lower(text: string): (lower: string)
    ensures |lower| == |text|
    ensures forall i :: 0 <= i < |text| ==>
      lower[i] == if 'A' <= text[i] <= 'F' then (text[i] as int + 32) as char else text[i]
  {
    if text == [] then []
    else [if 'A' <= text[0] <= 'F' then (text[0] as int + 32) as char else text[0]] + Lower(text[1..])
  }

  lemma DigitIsWritten(c: char)
    requires HexDigit(c).Some?
    ensures 0 <= HexDigit(c).value < 16
    ensures DigitOf(HexDigit(c).value) == if 'A' <= c <= 'F' then (c as int + 32) as char else c
  {
    if '0' <= c <= '9' {
    } else if 'a' <= c <= 'f' {
    } else {
    }
  }

  predicate IsHex(c: char) {
    '0' <= c <= '9' || 'a' <= c <= 'f' || 'A' <= c <= 'F'
  }

  lemma DigitIsReadIff(c: char)
    ensures HexDigit(c).Some? <==> IsHex(c)
  {
  }

  /** Exactly an even number of hexadecimal digits reads as bytes. */
  lemma {:induction false} HexIsReadIff(text: string)
    ensures DecodeHex(text).Some? <==> |text| % 2 == 0 && forall i :: 0 <= i < |text| ==> IsHex(text[i])
    ensures DecodeHex(text).None? ==> HexVec(text) == []
    decreases |text|
  {
    hide HexDigit, IsHex;
    if |text| >= 1 {
      DigitIsReadIff(text[0]);
    }
    if |text| >= 2 {
      DigitIsReadIff(text[1]);
      HexIsReadIff(text[2..]);
      assert forall i :: 2 <= i < |text| ==> text[i] == text[2..][i - 2];
      assert text[2..] == [] || text[2..][0] == text[2];
    }
  }

  lemma ByteIsWritten(high: char, low: char)
    requires HexByte(high, low).Some?
    ensures EncodeHex([HexByte(high, low).value]) == Lower([high, low])
  {
    hide HexDigit, DigitOf;
    DigitIsWritten(high);
    DigitIsWritten(low);
    var b := HexByte(high, low).value;
    assert b as int / 16 == HexDigit(high).value && b as int % 16 == HexDigit(low).value;
    assert EncodeHex([b]) == [DigitOf(b as int / 16), DigitOf(b as int % 16)];
  }

  /** Bytes that were read are written as the text was, in lower case. */
  lemma {:induction false} ReadHexIsWritten(text: string)
    requires DecodeHex(text).Some?
    ensures EncodeHex(HexVec(text)) == Lower(text)
    decreases |text|
  {
    hide HexByte, DigitOf;
    if text != [] {
      ReadHexIsWritten(text[2..]);
      ByteIsWritten(text[0], text[1]);
      var b := HexByte(text[0], text[1]).value;
      assert HexVec(text) == [b] + HexVec(text[2..]);
      assert EncodeHex(HexVec(text)) == EncodeHex([b]) + EncodeHex(HexVec(text[2..])) by {
        assert HexVec(text)[1..] == HexVec(text[2..]);
      }
    }
  }

  // ---------------------------------------------------------------------------------------------------
  // Cryptography, sessions, requests
  // ---------------------------------------------------------------------------------------------------

  /** A certificate that could be read: its signature, and the key it belongs to. */
  datatype Cert = Cert(signature: Bytes, key: nat)

  datatype Crypto = Crypto(
    hash: Bytes -> Digest,
    encrypt: (Bytes, Bytes) -> Bytes,
    decrypt: (Bytes, Bytes) -> Bytes,
    readCert: Bytes -> Option<Cert>,
    sign: (nat, Bytes) -> Bytes,
    verify: (Cert, Bytes, Bytes) -> bool)

  /** ECB without padding inverts on whole blocks; a signature is not empty and verifies. */
  ghost predicate Lawful(c: Crypto) {
    && (forall key, text :: |text| % 16 == 0 ==> c.decrypt(key, c.encrypt(key, text)) == text)
    && (forall key, data :: c.sign(key, data) != [])
    && (forall signature, key, data :: c.verify(Cert(signature, key), data, c.sign(key, data)))
  }

  /** `conf_intern`: the certificate of the server as text and as read, with its key. */
  datatype Server = Server(crypto: Crypto, certText: Bytes, cert: Cert)

  datatype Phase = NoPhase | ServerCertGiven | ChallengeAnswered | ResponseTaken

  datatype Session = Session(
    cert: Bytes, name: string, cipherKey: Option<Bytes>, clientHash: Bytes, serverSecret: Bytes,
    serverChallenge: Bytes, held: bool, salt: string, phase: Phase)

  datatype Named = Named(name: string, cert: Bytes)

  datatype State = State(sessions: map<string, Session>, authorized: seq<Named>)

  const EMPTY := State(map[], [])

  /** Requests to `pair` by their arguments, and a PIN entered; `picked` is the first session of the unordered map. */
  datatype Event =
    | NoUniqueId
    | AskCert(id: string, cert: Option<string>, salt: Option<string>, trusted: bool, typed: Option<Bytes>)
    | PairChallenge(id: string)
    | Challenge(id: string, text: string, secret: Nonce, challenge: Nonce)
    | Response(id: string, text: string)
    | Secret(id: string, text: string)
    | OtherPhrase(id: string)
    | EnterPin(pin: Bytes, name: string, picked: string)

  datatype Reply =
    | Reply(status: int, paired: Option<bool>, payload: Bytes)
    | Deferred
    | Threw
    | PinAnswer(accepted: bool, released: Option<Bytes>)

  /** What a phase leaves: a session that goes on, or none. */
  datatype Outcome = Kept(session: Session, payload: Bytes) | Failed | Finished(paired: bool)

  function AesKey(v: Server, salt: Bytes, pin: Bytes): Bytes {
    v.crypto.hash(salt + pin)[..16]
  }

  function SaltOf(text: string): Option<Bytes> {
    if |text| < 32 then None else DecodeHex(text[..32])
  }

  // ---------------------------------------------------------------------------------------------------
  // The phases
  // ---------------------------------------------------------------------------------------------------

  function CertPhase(v: Server, s: Session, pin: Bytes): (o: Outcome)
    ensures !o.Finished?
  {
    if s.phase != NoPhase then Failed
    else
      match SaltOf(s.salt)
      case None => Failed
      case Some(salt) =>
        Kept(s.(phase := ServerCertGiven, cipherKey := Some(AesKey(v, salt, pin))), v.certText)
  }

  function ChallengePhase(v: Server, s: Session, challenge: Bytes, secret: Nonce, serverChallenge: Nonce): Outcome {
    if s.phase != ServerCertGiven || s.cipherKey.None? then Failed
    else
      var key := s.cipherKey.value;
      var digest := v.crypto.hash(v.crypto.decrypt(key, challenge) + v.cert.signature + secret);
      Kept(s.(phase := ChallengeAnswered, serverSecret := secret, serverChallenge := serverChallenge),
           v.crypto.encrypt(key, digest + serverChallenge))
  }

  function ResponsePhase(v: Server, s: Session, response: Bytes): Outcome {
    if s.phase != ChallengeAnswered || s.cipherKey.None? || s.serverSecret == [] then Failed
    else
      Kept(s.(phase := ResponseTaken, clientHash := v.crypto.decrypt(s.cipherKey.value, response)),
           s.serverSecret + v.crypto.sign(v.cert.key, s.serverSecret))
  }

  /** The hash agrees and the secret is signed by the certificate. */
  predicate Proves(v: Server, cert: Cert, serverChallenge: Bytes, clientHash: Bytes, pairingSecret: Bytes)
    requires |pairingSecret| >= 16
  {
    && v.crypto.hash(serverChallenge + cert.signature + pairingSecret[..16]) == clientHash
    && v.crypto.verify(cert, pairingSecret[..16], pairingSecret[16..])
  }

  function SecretPhase(v: Server, s: Session, pairingSecret: Bytes): Outcome {
    if s.phase != ResponseTaken || |pairingSecret| <= 16 then Failed
    else
      match v.crypto.readCert(s.cert)
      case None => Failed
      case Some(cert) => Finished(Proves(v, cert, s.serverChallenge, s.clientHash, pairingSecret))
  }

  // ---------------------------------------------------------------------------------------------------
  // Requests
  // ---------------------------------------------------------------------------------------------------

  function Keep(t: State, id: string, o: Outcome): (State, Reply) {
    match o
    case Kept(s, payload) => (t.(sessions := t.sessions[id := s]), Reply(200, Some(true), payload))
    case Failed => (t.(sessions := t.sessions - {id}), Reply(400, Some(false), []))
    case Finished(paired) => (t.(sessions := t.sessions - {id}), Reply(200, Some(paired), []))
  }

  function NewSession(cert: Bytes): Session {
    Session(cert, "", None, [], [], [], false, "", NoPhase)
  }

  /** A restart forgets everything but the certificate. */
  function Restarted(t: State, id: string, cert: Bytes): Session {
    NewSession(if id in t.sessions then t.sessions[id].cert else cert)
  }

  const TRUSTED_PIN: Bytes := [48, 48, 48, 48]

  function AskForCert(v: Server, t: State, id: string, cert: string, salt: Option<string>, trusted: bool,
                      typed: Option<Bytes>): (State, Reply)
  {
    var s := Restarted(t, id, HexVec(cert));
    if salt.None? then (t.(sessions := t.sessions[id := s]), Threw)
    else
      var salted := s.(salt := salt.value);
      if trusted then Keep(t, id, CertPhase(v, salted.(name := "auto-paired"), TRUSTED_PIN))
      else if typed.Some? then Keep(t, id, CertPhase(v, salted, typed.value))
      else (t.(sessions := t.sessions[id := salted.(held := true)]), Deferred)
  }

  predicate IsPin(pin: Bytes) {
    |pin| == 4 && forall i :: 0 <= i < |pin| ==> 48 <= pin[i] <= 57
  }

  /** A picked session that is not there stands for an empty map. */
  function PinEntered(v: Server, t: State, pin: Bytes, name: string, picked: string): (State, Reply) {
    if picked !in t.sessions || !IsPin(pin) then (t, PinAnswer(false, None))
    else
      match CertPhase(v, t.sessions[picked], pin)
      case Kept(s, payload) =>
        (t.(sessions := t.sessions[picked := s.(name := name, held := false)]),
         PinAnswer(s.held, if s.held then Some(payload) else None))
      case _ => (t.(sessions := t.sessions - {picked}), PinAnswer(false, None))
  }

  function PairingSecret(v: Server, t: State, id: string, pairingSecret: Bytes): (State, Reply)
    requires id in t.sessions
  {
    var s := t.sessions[id];
    var o := SecretPhase(v, s, pairingSecret);
    Keep(if o == Finished(true) then t.(authorized := t.authorized + [Named(s.name, s.cert)]) else t, id, o)
  }

  /** A request that needs a session. */
  function Continued(v: Server, t: State, id: string, e: Event): (State, Reply)
    requires id in t.sessions
  {
    match e
    case Challenge(_, text, secret, challenge) =>
      Keep(t, id, ChallengePhase(v, t.sessions[id], HexVec(text), secret, challenge))
    case Response(_, text) => Keep(t, id, ResponsePhase(v, t.sessions[id], HexVec(text)))
    case Secret(_, text) => PairingSecret(v, t, id, HexVec(text))
    case _ => (t, Reply(404, None, []))
  }

  function Step(v: Server, t: State, e: Event): (State, Reply) {
    match e
    case NoUniqueId => (t, Reply(400, None, []))
    case AskCert(id, cert, salt, trusted, typed) =>
      if cert.None? then (t, Threw) else AskForCert(v, t, id, cert.value, salt, trusted, typed)
    case PairChallenge(_) => (t, Reply(200, Some(true), []))
    case EnterPin(pin, name, picked) => PinEntered(v, t, pin, name, picked)
    case _ =>
      if e.id !in t.sessions then (t, Reply(400, None, []))
      else Continued(v, t, e.id, e)
  }

  function Run(v: Server, t: State, events: seq<Event>): State
    decreases |events|
  {
    if events == [] then t else Step(v, Run(v, t, events[..|events| - 1]), events[|events| - 1]).0
  }

  // ---------------------------------------------------------------------------------------------------
  // Only all four phases authorise
  // ---------------------------------------------------------------------------------------------------

  /** Positions in a run: the first request of the session, its last restart, its PIN, challenge and response. */
  datatype Marks = Marks(first: nat, restart: nat, pin: nat, challenge: nat, response: nat)

  predicate Restarts(e: Event, id: string) {
    e.AskCert? && e.id == id && e.cert.Some?
  }

  /** The PIN that an event brings for session `id`. */
  function PinFor(e: Event, id: string): Option<Bytes> {
    match e
    case AskCert(i, cert, salt, trusted, typed) =>
      if i != id || cert.None? || salt.None? then None else if trusted then Some(TRUSTED_PIN) else typed
    case EnterPin(pin, _, picked) =>
      if picked == id && |pin| == 4 && forall i :: 0 <= i < 4 ==> 48 <= pin[i] <= 57 then Some(pin) else None
    case _ => None
  }

  /** The name that comes with the PIN. */
  function NameFor(e: Event): string {
    match e
    case AskCert(_, _, _, trusted, _) => if trusted then "auto-paired" else ""
    case EnterPin(_, name, _) => name
    case _ => ""
  }

  /** The salt and PIN of the marked events give this key; the PIN came with this name. */
  ghost predicate KeyedBy(v: Server, events: seq<Event>, id: string, restart: nat, pin: nat, salt: string, key: Bytes,
                          name: string)
  {
    && restart <= pin < |events|
    && PinFor(events[pin], id).Some? && name == NameFor(events[pin])
    && |salt| >= 32 && DecodeHex(salt[..32]).Some?
    && key == v.crypto.hash(DecodeHex(salt[..32]).value + PinFor(events[pin], id).value)[..16]
  }

  /** The session was opened by event `first` and last restarted by `restart`, whose salt it holds. */
  ghost predicate Opened(events: seq<Event>, id: string, first: nat, restart: nat, cert: Bytes, salt: string) {
    && first <= restart < |events|
    && Restarts(events[first], id) && cert == HexVec(events[first].cert.value)
    && Restarts(events[restart], id)
    && salt == (match events[restart].salt case Some(x) => x case None => "")
    && (forall i :: restart < i < |events| ==> !Restarts(events[i], id))
  }

  ghost predicate Challenged(events: seq<Event>, id: string, pin: nat, at: nat, secret: Bytes, challenge: Bytes) {
    && pin < at < |events|
    && events[at].Challenge? && events[at].id == id
    && events[at].secret == secret && events[at].challenge == challenge
  }

  ghost predicate Responded(v: Server, events: seq<Event>, id: string, challenge: nat, at: nat, key: Bytes,
                            clientHash: Bytes)
  {
    && challenge < at < |events|
    && events[at].Response? && events[at].id == id
    && clientHash == v.crypto.decrypt(key, HexVec(events[at].text))
  }

  /** What the events so far say about a session, phase by phase. */
  ghost predicate Explains(v: Server, events: seq<Event>, id: string, s: Session, m: Marks) {
    && Opened(events, id, m.first, m.restart, s.cert, s.salt)
    && (s.phase == NoPhase <==> s.cipherKey.None?)
    && (s.phase != NoPhase ==> KeyedBy(v, events, id, m.restart, m.pin, s.salt, s.cipherKey.value, s.name))
    && (s.phase == ChallengeAnswered || s.phase == ResponseTaken ==>
          Challenged(events, id, m.pin, m.challenge, s.serverSecret, s.serverChallenge))
    && (s.phase == ResponseTaken ==> Responded(v, events, id, m.challenge, m.response, s.cipherKey.value, s.clientHash))
  }

  ghost predicate Explained(v: Server, events: seq<Event>, id: string, s: Session) {
    exists m :: Explains(v, events, id, s, m)
  }

  /**
   Event `n` authorised this client by right: with the certificate that opened the session, after its last restart
   came a PIN, a challenge, a response and now a pairing secret; the response, under the key of salt and PIN, is the
   hash of the server's challenge, the certificate's signature and the secret, which the certificate has signed.
   */
  ghost predicate Earned(v: Server, events: seq<Event>, n: nat, m: Marks, who: Named) {
    && n < |events| && events[n].Secret?
    && var id, sent := events[n].id, HexVec(events[n].text);
      exists salt, key, secret: Nonce, challenge: Nonce, clientHash ::
        && Opened(events[..n], id, m.first, m.restart, who.cert, salt)
        && KeyedBy(v, events[..n], id, m.restart, m.pin, salt, key, who.name)
        && Challenged(events[..n], id, m.pin, m.challenge, secret, challenge)
        && Responded(v, events[..n], id, m.challenge, m.response, key, clientHash)
        && |sent| > 16 && v.crypto.readCert(who.cert).Some?
        && var cert := v.crypto.readCert(who.cert).value;
           && v.crypto.hash(challenge + cert.signature + sent[..16]) == clientHash
           && v.crypto.verify(cert, sent[..16], sent[16..])
  }

  ghost predicate AllExplained(v: Server, events: seq<Event>, t: State) {
    forall id :: id in t.sessions ==> Explained(v, events, id, t.sessions[id])
  }

  /** Another event changes nothing about the marked ones, unless it restarts the session. */
  lemma MarksStay(v: Server, events: seq<Event>, e: Event, id: string, s: Session, m: Marks)
    requires Explains(v, events, id, s, m) && !Restarts(e, id)
    ensures Explains(v, events + [e], id, s, m)
  {
    hide PinFor, NameFor, SaltOf, HexVec, AesKey;
    var more := events + [e];
    assert more[m.first] == events[m.first] && more[m.restart] == events[m.restart];
    assert forall i :: m.restart < i < |events| ==> more[i] == events[i];
    assert Opened(more, id, m.first, m.restart, s.cert, s.salt);
    if s.phase != NoPhase {
      assert more[m.pin] == events[m.pin];
      assert KeyedBy(v, more, id, m.restart, m.pin, s.salt, s.cipherKey.value, s.name);
    }
    if s.phase == ChallengeAnswered || s.phase == ResponseTaken {
      assert more[m.challenge] == events[m.challenge];
    }
    if s.phase == ResponseTaken {
      assert more[m.response] == events[m.response];
    }
  }

  lemma StillExplains(v: Server, events: seq<Event>, e: Event, id: string, s: Session)
    requires Explained(v, events, id, s) && !Restarts(e, id)
    ensures Explained(v, events + [e], id, s)
  {
    hide Explains;
    var m :| Explains(v, events, id, s, m);
    MarksStay(v, events, e, id, s, m);
  }

  /** The session that an event may touch. */
  function Subject(e: Event): Option<string> {
    match e
    case AskCert(id, cert, _, _, _) => if cert.Some? then Some(id) else None
    case Challenge(id, _, _, _) => Some(id)
    case Response(id, _) => Some(id)
    case Secret(id, _) => Some(id)
    case EnterPin(_, _, picked) => Some(picked)
    case _ => None
  }

  /** An event leaves every session alone but its own. */
  lemma StepLeavesOthers(v: Server, t: State, e: Event, id: string)
    requires Subject(e) != Some(id)
    ensures var n := Step(v, t, e).0;
      (id in n.sessions <==> id in t.sessions) && (id in t.sessions ==> n.sessions[id] == t.sessions[id])
  {
    hide CertPhase, ChallengePhase, ResponsePhase, SecretPhase, IsPin, HexVec;
  }

  lemma CertExplained(v: Server, events: seq<Event>, e: Event, id: string, s: Session, m: Marks, pin: Bytes)
    requires Opened(events + [e], id, m.first, m.restart, s.cert, s.salt) && s.phase == NoPhase && s.cipherKey.None?
    requires PinFor(e, id) == Some(pin) && m.pin == |events| && s.name == NameFor(e)
    ensures var o := CertPhase(v, s, pin);
      o.Kept? ==>
        Explained(v, events + [e], id, o.session.(held := false)) && Explained(v, events + [e], id, o.session)
  {
    var o := CertPhase(v, s, pin);
    if o.Kept? {
      assert (events + [e])[m.pin] == e;
      assert Explains(v, events + [e], id, o.session, m);
      assert Explains(v, events + [e], id, o.session.(held := false), m);
    }
  }

  lemma AskExplained(v: Server, events: seq<Event>, t: State, e: Event)
    requires AllExplained(v, events, t) && e.AskCert? && e.cert.Some?
    ensures var n := Step(v, t, e).0; e.id in n.sessions ==> Explained(v, events + [e], e.id, n.sessions[e.id])
  {
    var id, now, more := e.id, |events|, events + [e];
    var was: Marks := Marks(now, now, now, now, now);
    if id in t.sessions {
      was :| Explains(v, events, id, t.sessions[id], was);
      assert more[was.first] == events[was.first];
    }
    var m := Marks(was.first, now, now, now, now);
    assert more[now] == e;
    var s := Restarted(t, id, HexVec(e.cert.value));
    var salted := s.(salt := if e.salt.Some? then e.salt.value else "");
    assert Opened(more, id, m.first, m.restart, salted.cert, salted.salt);
    assert Explains(v, more, id, salted, m);
    assert Explains(v, more, id, salted.(held := true), m);
    if e.salt.Some? && e.trusted {
      CertExplained(v, events, e, id, salted.(name := "auto-paired"), m, TRUSTED_PIN);
    } else if e.salt.Some? && e.typed.Some? {
      CertExplained(v, events, e, id, salted, m, e.typed.value);
    }
  }

  lemma PinExplained(v: Server, events: seq<Event>, t: State, e: Event)
    requires AllExplained(v, events, t) && e.EnterPin?
    ensures var n := Step(v, t, e).0;
      e.picked in n.sessions ==> Explained(v, events + [e], e.picked, n.sessions[e.picked])
  {
    var id := e.picked;
    if id in t.sessions {
      var s := t.sessions[id];
      StillExplains(v, events, e, id, s);
      if IsPin(e.pin) && CertPhase(v, s, e.pin).Kept? {
        var m :| Explains(v, events + [e], id, s, m);
        CertExplained(v, events, e, id, s.(name := e.name), m.(pin := |events|), e.pin);
      }
    }
  }

  lemma KeyedBefore(v: Server, events: seq<Event>, id: string, restart: nat, pin: nat, salt: string, key: Bytes,
                    name: string)
    requires KeyedBy(v, events, id, restart, pin, salt, key, name)
    ensures pin < |events|
  {
  }

  lemma ChallengeExplained(v: Server, events: seq<Event>, t: State, e: Event)
    requires AllExplained(v, events, t) && e.Challenge?
    ensures var n := Step(v, t, e).0; e.id in n.sessions ==> Explained(v, events + [e], e.id, n.sessions[e.id])
  {
    if e.id in t.sessions {
      var s := t.sessions[e.id];
      var o := ChallengePhase(v, s, HexVec(e.text), e.secret, e.challenge);
      if o.Kept? {
        hide Opened, KeyedBy, HexVec;
        var was :| Explains(v, events, e.id, s, was);
        MarksStay(v, events, e, e.id, s, was);
        var more := events + [e];
        KeyedBefore(v, events, e.id, was.restart, was.pin, s.salt, s.cipherKey.value, s.name);
        assert more[|events|] == e;
        assert Explains(v, more, e.id, o.session, was.(challenge := |events|));
      }
    }
  }

  lemma ResponseExplained(v: Server, events: seq<Event>, t: State, e: Event)
    requires AllExplained(v, events, t) && e.Response?
    ensures var n := Step(v, t, e).0; e.id in n.sessions ==> Explained(v, events + [e], e.id, n.sessions[e.id])
  {
    if e.id in t.sessions {
      var s := t.sessions[e.id];
      var o := ResponsePhase(v, s, HexVec(e.text));
      if o.Kept? {
        hide Opened, KeyedBy, HexVec;
        var was :| Explains(v, events, e.id, s, was);
        MarksStay(v, events, e, e.id, s, was);
        var more := events + [e];
        assert more[|events|] == e;
        assert Explains(v, more, e.id, o.session, was.(response := |events|));
      }
    }
  }

  lemma SecretEnds(v: Server, t: State, id: string, sent: Bytes)
    requires id in t.sessions
    ensures id !in PairingSecret(v, t, id, sent).0.sessions
  {
  }

  lemma StepExplained(v: Server, events: seq<Event>, t: State, e: Event)
    requires AllExplained(v, events, t)
    ensures AllExplained(v, events + [e], Step(v, t, e).0)
  {
    var n := Step(v, t, e).0;
    forall id | id in n.sessions ensures Explained(v, events + [e], id, n.sessions[id]) {
      if Subject(e) != Some(id) {
        hide Explained, Step;
        StepLeavesOthers(v, t, e, id);
        StillExplains(v, events, e, id, t.sessions[id]);
      } else {
        match e
        case AskCert(_, _, _, _, _) => AskExplained(v, events, t, e);
        case EnterPin(_, _, _) => PinExplained(v, events, t, e);
        case Challenge(_, _, _, _) => ChallengeExplained(v, events, t, e);
        case Response(_, _) => ResponseExplained(v, events, t, e);
        case Secret(_, text) => if id in t.sessions { SecretEnds(v, t, id, HexVec(text)); }
        case _ =>
      }
    }
  }

  lemma {:induction false} RunExplained(v: Server, events: seq<Event>)
    ensures AllExplained(v, events, Run(v, EMPTY, events))
    decreases |events|
  {
    if events != [] {
      var n := |events| - 1;
      RunExplained(v, events[..n]);
      assert events == events[..n] + [events[n]];
      StepExplained(v, events[..n], Run(v, EMPTY, events[..n]), events[n]);
    }
  }

  /** In every reachable state a session past its first phase has its key and its secret. */
  lemma KeyIsAlwaysSet(v: Server, events: seq<Event>, id: string)
    ensures var t := Run(v, EMPTY, events);
      id in t.sessions ==>
        var s := t.sessions[id];
        (s.phase != NoPhase <==> s.cipherKey.Some?) &&
        (s.phase == ChallengeAnswered || s.phase == ResponseTaken ==> |s.serverSecret| == 16)
  {
    RunExplained(v, events);
  }

  lemma SecretEarned(v: Server, events: seq<Event>, n: nat, id: string, s: Session)
    requires n < |events| && events[n].Secret? && events[n].id == id && Explained(v, events[..n], id, s)
    requires Genuine(v, s, HexVec(events[n].text))
    ensures exists m :: Earned(v, events, n, m, Named(s.name, s.cert))
  {
    var m :| Explains(v, events[..n], id, s, m);
    var secret: Nonce, challenge: Nonce := s.serverSecret, s.serverChallenge;
    assert KeyedBy(v, events[..n], id, m.restart, m.pin, s.salt, s.cipherKey.value, s.name);
    assert Challenged(events[..n], id, m.pin, m.challenge, secret, challenge);
    assert Earned(v, events, n, m, Named(s.name, s.cert));
  }

  /**
   The pairing secret is sent in its phase, is long enough for a signature, comes with a certificate that can be read,
   agrees with the hash that the client gave before and is signed by the certificate.
   */
  predicate Genuine(v: Server, s: Session, sent: Bytes) {
    && s.phase == ResponseTaken && |sent| > 16
    && match v.crypto.readCert(s.cert)
       case None => false
       case Some(cert) =>
         && v.crypto.hash(s.serverChallenge + cert.signature + sent[..16]) == s.clientHash
         && v.crypto.verify(cert, sent[..16], sent[16..])
  }

  /** Authorisations only ever come from a genuine pairing secret, one at a time. */
  lemma OnlySecretsAuthorise(v: Server, t: State, e: Event)
    ensures var n := Step(v, t, e).0;
      n.authorized == t.authorized ||
      (e.Secret? && e.id in t.sessions && Genuine(v, t.sessions[e.id], HexVec(e.text)) &&
       n.authorized == t.authorized + [Named(t.sessions[e.id].name, t.sessions[e.id].cert)])
  {
    hide CertPhase, ChallengePhase, ResponsePhase, IsPin, HexVec;
  }

  /**
   A pairing secret authorises its client, and is answered as paired, exactly if it is genuine; either way the session
   is gone. A hash or a signature that does not agree is answered as not paired, anything else as a failure.
   */
  lemma AuthorisedIff(v: Server, t: State, id: string, text: string)
    requires id in t.sessions
    ensures var s, sent := t.sessions[id], HexVec(text);
      var (n, r) := Step(v, t, Secret(id, text));
      && n.sessions == t.sessions - {id}
      && n.authorized == (if Genuine(v, s, sent) then t.authorized + [Named(s.name, s.cert)] else t.authorized)
      && r == (if Genuine(v, s, sent) then Reply(200, Some(true), [])
               else if s.phase == ResponseTaken && |sent| > 16 && v.crypto.readCert(s.cert).Some?
               then Reply(200, Some(false), []) else Reply(400, Some(false), []))
  {
    hide HexVec;
  }

  /**
   A client whose response was not the hash of the challenge, the signature of its certificate and the secret it now
   sends, or whose secret the certificate has not signed, is not authorised and has to start again.
   */
  lemma ImpostorIsRefused(v: Server, t: State, id: string, text: string, cert: Cert, later: Event)
    requires (later.Challenge? || later.Response? || later.Secret?) && later.id == id
    requires id in t.sessions && v.crypto.readCert(t.sessions[id].cert) == Some(cert) && |HexVec(text)| > 16
    requires var s, sent := t.sessions[id], HexVec(text);
      v.crypto.hash(s.serverChallenge + cert.signature + sent[..16]) != s.clientHash ||
      !v.crypto.verify(cert, sent[..16], sent[16..])
    ensures var (n, r) := Step(v, t, Secret(id, text));
      && id !in n.sessions && n.authorized == t.authorized
      && r.Reply? && r.paired == Some(false)
      && Step(v, n, later) == (n, Reply(400, None, []))
  {
    hide HexVec;
    AuthorisedIff(v, t, id, text);
  }

  /** A challenge and a response are taken exactly in their phase; out of it the session is dropped. */
  lemma PhasesComeInOrder(v: Server, t: State, e: Event)
    requires (e.Challenge? || e.Response?) && e.id in t.sessions
    ensures var s := t.sessions[e.id];
      var (n, r) := Step(v, t, e);
      var inOrder :=
        s.cipherKey.Some? &&
        if e.Challenge? then s.phase == ServerCertGiven else s.phase == ChallengeAnswered && s.serverSecret != [];
      && n.authorized == t.authorized && r.Reply?
      && if inOrder then
           && r.status == 200 && r.paired == Some(true) && e.id in n.sessions
           && n.sessions == t.sessions[e.id := n.sessions[e.id]]
           && n.sessions[e.id].phase == (if e.Challenge? then ChallengeAnswered else ResponseTaken)
         else r == Reply(400, Some(false), []) && n.sessions == t.sessions - {e.id}
  {
    hide HexVec;
  }

  /**
   A request for the certificate throws without certificate or salt, is answered at once if it comes from a trusted
   network or a PIN was typed, and otherwise waits for a PIN. The answer is the certificate exactly if the salt can be
   read; either way all that is left of an older session is its certificate.
   */
  lemma CertIsGivenIff(v: Server, t: State, id: string, cert: Option<string>, salt: Option<string>, trusted: bool,
                       typed: Option<Bytes>)
    ensures var (n, r) := Step(v, t, AskCert(id, cert, salt, trusted, typed));
      && n.authorized == t.authorized
      && (cert.Some? && id in n.sessions ==>
            var s := n.sessions[id];
            && s.cert == (if id in t.sessions then t.sessions[id].cert else HexVec(cert.value))
            && s.clientHash == s.serverSecret == s.serverChallenge == [])
      && if cert.None? then r == Threw && n == t
         else if salt.None? then r == Threw
         else if !trusted && typed.None? then
           r == Deferred && id in n.sessions && n.sessions[id].held && n.sessions[id].phase == NoPhase
         else if |salt.value| >= 32 && DecodeHex(salt.value[..32]).Some? then
           && r == Reply(200, Some(true), v.certText) && id in n.sessions && !n.sessions[id].held
           && n.sessions[id].phase == ServerCertGiven && n.sessions[id].name == (if trusted then "auto-paired" else "")
         else r == Reply(400, Some(false), []) && id !in n.sessions
  {
    hide DecodeHex, HexVec;
  }

  /**
   What is entered as a PIN and is not four digits changes nothing; four digits are taken exactly by a session that
   waits for its PIN and has a salt, and end any other.
   */
  lemma PinIsTakenIff(v: Server, t: State, pin: Bytes, name: string, id: string)
    requires id in t.sessions
    ensures var s := t.sessions[id];
      var (n, r) := Step(v, t, EnterPin(pin, name, id));
      if |pin| != 4 || exists i :: 0 <= i < 4 && !(48 <= pin[i] <= 57) then n == t && r == PinAnswer(false, None)
      else if s.phase == NoPhase && |s.salt| >= 32 && DecodeHex(s.salt[..32]).Some? then
        && id in n.sessions && n.sessions[id].phase == ServerCertGiven && n.sessions[id].name == name
        && n.sessions == t.sessions[id := n.sessions[id]] && n.authorized == t.authorized
        && r == PinAnswer(s.held, if s.held then Some(v.certText) else None)
      else n == t.(sessions := t.sessions - {id}) && r == PinAnswer(false, None)
  {
    hide DecodeHex;
    if |pin| == 4 && exists i :: 0 <= i < 4 && !(48 <= pin[i] <= 57) {
      assert !IsPin(pin);
    }
  }

  lemma EarnedStays(v: Server, events: seq<Event>, n: nat, m: Marks, who: Named, e: Event)
    requires Earned(v, events, n, m, who)
    ensures Earned(v, events + [e], n, m, who)
  {
    assert (events + [e])[..n] == events[..n];
    assert (events + [e])[n] == events[n];
  }

  /** Nobody is authorised without having gone through all the phases, in order, with the PIN. */
  lemma {:induction false} AuthorisedOnlyByAllPhases(v: Server, events: seq<Event>, who: Named)
    requires who in Run(v, EMPTY, events).authorized
    ensures exists n, m :: Earned(v, events, n, m, who)
    decreases |events|
  {
    var n := |events| - 1;
    var before, e := events[..n], events[n];
    assert events == before + [e];
    var t := Run(v, EMPTY, before);
    OnlySecretsAuthorise(v, t, e);
    if who in t.authorized {
      AuthorisedOnlyByAllPhases(v, before, who);
      var k, m :| Earned(v, before, k, m, who);
      EarnedStays(v, before, k, m, who, e);
    } else {
      RunExplained(v, before);
      SecretEarned(v, events, n, e.id, t.sessions[e.id]);
    }
  }

  /**
   A request or PIN that is answered with a failure leaves no session behind, be it new or known, and nobody
   authorised; a pairing secret ends its session either way. A request that throws for want of a salt does leave its
   session, which no PIN will satisfy.
   */
  lemma FailureRemovesSession(v: Server, t: State, e: Event, id: string)
    requires Subject(e) == Some(id)
    ensures var (n, r) := Step(v, t, e);
      && (r.Reply? && r.paired == Some(false) ==> n.sessions == t.sessions - {id} && n.authorized == t.authorized)
      && (e.Secret? ==> id !in n.sessions)
      && (e.EnterPin? && IsPin(e.pin) && id in t.sessions && CertPhase(v, t.sessions[id], e.pin).Failed? ==>
            r == PinAnswer(false, None) && n.sessions == t.sessions - {id})
      && (r.Threw? ==> id in n.sessions && forall pin :: CertPhase(v, n.sessions[id], pin).Failed?)
  {
    hide IsPin, HexVec;
  }

  // ---------------------------------------------------------------------------------------------------
  // An honest client is paired
  // ---------------------------------------------------------------------------------------------------

  /** A client: its certificate (text and what it reads as), its salt, the PIN it shows, its random bytes. */
  datatype Client = Client(id: string, certText: Bytes, cert: Cert, salt: Nonce, pin: Bytes, challenge: Nonce,
                           secret: Nonce)

  /** The same primitives on both sides, a certificate that can be read, and four digits. */
  ghost predicate Honest(v: Server, c: Client) {
    && Lawful(v.crypto) && v.crypto.readCert(c.certText) == Some(c.cert)
    && |c.pin| == 4 && forall i :: 0 <= i < 4 ==> 48 <= c.pin[i] <= 57
  }

  function ClientKey(v: Server, c: Client): Bytes {
    v.crypto.hash(c.salt + c.pin)[..16]
  }

  function FirstRequest(c: Client): Event {
    AskCert(c.id, Some(EncodeHex(c.certText)), Some(EncodeHex(c.salt)), false, None)
  }

  function ChallengeText(v: Server, c: Client): string {
    EncodeHex(v.crypto.encrypt(ClientKey(v, c), c.challenge))
  }

  /** The client takes the server's challenge out of the reply and answers it. */
  function ResponseText(v: Server, c: Client, reply: Bytes): string {
    var plain := v.crypto.decrypt(ClientKey(v, c), reply);
    var serverChallenge := if |plain| < 32 then [] else plain[32..];
    EncodeHex(v.crypto.encrypt(ClientKey(v, c), v.crypto.hash(serverChallenge + c.cert.signature + c.secret)))
  }

  function SecretText(v: Server, c: Client): string {
    EncodeHex(c.secret + v.crypto.sign(c.cert.key, c.secret))
  }

  /** What the client checks: the secret it is sent is signed by the server, and the first reply was made from it. */
  ghost predicate ServerProves(v: Server, c: Client, challengeReply: Bytes, secretReply: Bytes) {
    var plain := v.crypto.decrypt(ClientKey(v, c), challengeReply);
    && |secretReply| > 16 && |plain| == 48
    && plain[..32] == v.crypto.hash(c.challenge + v.cert.signature + secretReply[..16])
    && v.crypto.verify(v.cert, secretReply[..16], secretReply[16..])
  }

  /** No event is about this session: neither a request of its own nor a PIN that falls on it. */
  ghost predicate Quiet(events: seq<Event>, id: string) {
    forall i :: 0 <= i < |events| ==> Subject(events[i]) != Some(id)
  }

  lemma {:induction false} QuietKeeps(v: Server, t: State, events: seq<Event>, id: string)
    requires Quiet(events, id)
    ensures var n := Run(v, t, events);
      (id in n.sessions <==> id in t.sessions) && (id in t.sessions ==> n.sessions[id] == t.sessions[id])
    decreases |events|
  {
    if events != [] {
      var k := |events| - 1;
      QuietKeeps(v, t, events[..k], id);
      StepLeavesOthers(v, Run(v, t, events[..k]), events[k], id);
    }
  }

  /** The session of this client after each phase; `cert` is the certificate that the session holds. */
  function AskedSession(c: Client, cert: Bytes): Session {
    NewSession(cert).(salt := EncodeHex(c.salt), held := true)
  }

  function KeyedSession(v: Server, c: Client, cert: Bytes, name: string): Session {
    AskedSession(c, cert).(phase := ServerCertGiven, cipherKey := Some(ClientKey(v, c)), name := name, held := false)
  }

  function ChallengedSession(v: Server, c: Client, cert: Bytes, name: string, secret: Nonce, challenge: Nonce): Session
  {
    KeyedSession(v, c, cert, name).(phase := ChallengeAnswered, serverSecret := secret, serverChallenge := challenge)
  }

  function AnsweredSession(v: Server, c: Client, cert: Bytes, name: string, secret: Nonce, challenge: Nonce): Session {
    ChallengedSession(v, c, cert, name, secret, challenge).(phase := ResponseTaken,
      clientHash := v.crypto.hash(challenge + c.cert.signature + c.secret))
  }

  lemma AskStage(v: Server, t: State, c: Client)
    ensures var n := Step(v, t, FirstRequest(c)).0;
      c.id in n.sessions &&
      n.sessions[c.id] == AskedSession(c, if c.id in t.sessions then t.sessions[c.id].cert else c.certText)
  {
    HexRoundTrip(c.certText);
  }

  lemma PinStage(v: Server, t: State, c: Client, cert: Bytes, name: string)
    requires IsPin(c.pin) && c.id in t.sessions && t.sessions[c.id] == AskedSession(c, cert)
    ensures var (n, r) := Step(v, t, EnterPin(c.pin, name, c.id));
      && r == PinAnswer(true, Some(v.certText))
      && c.id in n.sessions && n.sessions[c.id] == KeyedSession(v, c, cert, name)
  {
    HexRoundTrip(c.salt);
    assert EncodeHex(c.salt)[..32] == EncodeHex(c.salt);
  }

  function ChallengeReply(v: Server, c: Client, secret: Nonce, challenge: Nonce): Bytes {
    v.crypto.encrypt(ClientKey(v, c), v.crypto.hash(c.challenge + v.cert.signature + secret) + challenge)
  }

  lemma ChallengeStage(v: Server, t: State, c: Client, cert: Bytes, name: string, secret: Nonce, challenge: Nonce)
    requires Lawful(v.crypto) && c.id in t.sessions && t.sessions[c.id] == KeyedSession(v, c, cert, name)
    ensures var (n, r) := Step(v, t, Challenge(c.id, ChallengeText(v, c), secret, challenge));
      && r == Reply(200, Some(true), ChallengeReply(v, c, secret, challenge))
      && c.id in n.sessions && n.sessions[c.id] == ChallengedSession(v, c, cert, name, secret, challenge)
  {
    HexRoundTrip(v.crypto.encrypt(ClientKey(v, c), c.challenge));
  }

  lemma ResponseStage(v: Server, t: State, c: Client, cert: Bytes, name: string, secret: Nonce, challenge: Nonce)
    requires Lawful(v.crypto) && c.id in t.sessions
    requires t.sessions[c.id] == ChallengedSession(v, c, cert, name, secret, challenge)
    ensures var reply := ChallengeReply(v, c, secret, challenge);
      var (n, r) := Step(v, t, Response(c.id, ResponseText(v, c, reply)));
      && r == Reply(200, Some(true), secret + v.crypto.sign(v.cert.key, secret))
      && ServerProves(v, c, reply, r.payload)
      && c.id in n.sessions && n.sessions[c.id] == AnsweredSession(v, c, cert, name, secret, challenge)
  {
    var key, reply := ClientKey(v, c), ChallengeReply(v, c, secret, challenge);
    var digest := v.crypto.hash(c.challenge + v.cert.signature + secret);
    assert v.crypto.decrypt(key, reply) == digest + challenge;
    assert (digest + challenge)[32..] == challenge && (digest + challenge)[..32] == digest;
    var answer := v.crypto.hash(challenge + c.cert.signature + c.secret);
    HexRoundTrip(v.crypto.encrypt(key, answer));
    assert v.crypto.decrypt(key, v.crypto.encrypt(key, answer)) == answer;
    var sent := secret + v.crypto.sign(v.cert.key, secret);
    assert sent[..16] == secret && sent[16..] == v.crypto.sign(v.cert.key, secret);
    assert v.cert == Cert(v.cert.signature, v.cert.key);
  }

  lemma SecretStage(v: Server, t: State, c: Client, cert: Bytes, name: string, secret: Nonce, challenge: Nonce)
    requires Honest(v, c) && c.id in t.sessions
    requires t.sessions[c.id] == AnsweredSession(v, c, cert, name, secret, challenge)
    ensures var (n, r) := Step(v, t, Secret(c.id, SecretText(v, c)));
      && c.id !in n.sessions
      && (cert == c.certText ==> r == Reply(200, Some(true), []) && n.authorized == t.authorized + [Named(name, cert)])
      && (n.authorized == t.authorized || n.authorized == t.authorized + [Named(name, cert)])
  {
    var sent := c.secret + v.crypto.sign(c.cert.key, c.secret);
    HexRoundTrip(sent);
    assert sent[..16] == c.secret && sent[16..] == v.crypto.sign(c.cert.key, c.secret);
    assert c.cert == Cert(c.cert.signature, c.cert.key);
  }

  /** The states and replies of a conversation in which other sessions' events come in between. */
  datatype Conversation = Conversation(pinAnswer: Reply, challengeReply: Bytes, secretReply: Bytes, before: State,
                                       after: State, verdict: Reply)

  function PayloadOf(r: Reply): Bytes {
    if r.Reply? then r.payload else []
  }

  function Converse(v: Server, t: State, c: Client, name: string, secret: Nonce, challenge: Nonce,
                    q1: seq<Event>, q2: seq<Event>, q3: seq<Event>, q4: seq<Event>): Conversation
  {
    var asked := Run(v, Step(v, t, FirstRequest(c)).0, q1);
    var pin := Step(v, asked, EnterPin(c.pin, name, c.id));
    var first := Step(v, Run(v, pin.0, q2), Challenge(c.id, ChallengeText(v, c), secret, challenge));
    var answer := ResponseText(v, c, PayloadOf(first.1));
    var second := Step(v, Run(v, first.0, q3), Response(c.id, answer));
    var before := Run(v, second.0, q4);
    var last := Step(v, before, Secret(c.id, SecretText(v, c)));
    Conversation(pin.1, PayloadOf(first.1), PayloadOf(second.1), before, last.0, last.1)
  }

  /**
   A client that holds the PIN and talks to its own session is paired under its certificate, its session is gone, and
   the server has proved itself too, exactly if no session with another certificate was left under the same id: a
   restart keeps the certificate of the session it restarts.
   */
  lemma HonestClientIsPairedIff(v: Server, t: State, c: Client, name: string, secret: Nonce, challenge: Nonce,
                                q1: seq<Event>, q2: seq<Event>, q3: seq<Event>, q4: seq<Event>)
    requires Honest(v, c)
    requires Quiet(q1, c.id) && Quiet(q2, c.id) && Quiet(q3, c.id) && Quiet(q4, c.id)
    ensures var talk := Converse(v, t, c, name, secret, challenge, q1, q2, q3, q4);
      && c.id !in talk.after.sessions
      && talk.pinAnswer == PinAnswer(true, Some(v.certText))
      && ServerProves(v, c, talk.challengeReply, talk.secretReply)
      && (talk.verdict == Reply(200, Some(true), []) &&
          talk.after.authorized == talk.before.authorized + [Named(name, c.certText)] <==>
          c.id !in t.sessions || t.sessions[c.id].cert == c.certText)
      && (talk.after.authorized == talk.before.authorized ||
          var cert := if c.id in t.sessions then t.sessions[c.id].cert else c.certText;
          talk.after.authorized == talk.before.authorized + [Named(name, cert)])
  {
    hide Step, Run, Quiet, Lawful, ServerProves, AskedSession, KeyedSession, ChallengedSession, AnsweredSession,
      ChallengeReply, ChallengeText, ResponseText, SecretText, FirstRequest;
    var cert := if c.id in t.sessions then t.sessions[c.id].cert else c.certText;
    AskStage(v, t, c);
    var t1 := Step(v, t, FirstRequest(c)).0;
    QuietKeeps(v, t1, q1, c.id);
    PinStage(v, Run(v, t1, q1), c, cert, name);
    var t2 := Step(v, Run(v, t1, q1), EnterPin(c.pin, name, c.id)).0;
    QuietKeeps(v, t2, q2, c.id);
    ChallengeStage(v, Run(v, t2, q2), c, cert, name, secret, challenge);
    var t3 := Step(v, Run(v, t2, q2), Challenge(c.id, ChallengeText(v, c), secret, challenge)).0;
    QuietKeeps(v, t3, q3, c.id);
    ResponseStage(v, Run(v, t3, q3), c, cert, name, secret, challenge);
    var reply := ChallengeReply(v, c, secret, challenge);
    var t4 := Step(v, Run(v, t3, q3), Response(c.id, ResponseText(v, c, reply))).0;
    QuietKeeps(v, t4, q4, c.id);
    SecretStage(v, Run(v, t4, q4), c, cert, name, secret, challenge);
    var before := Run(v, t4, q4).authorized;
    if cert != c.certText {
      assert (before + [Named(name, cert)])[|before|] != (before + [Named(name, c.certText)])[|before|];
    }
  }

  /**
   From the empty state: a client asks once under an old certificate, gives up, and comes back with a new one. It goes
   through the whole conversation, and the new certificate is not authorised.
   */
  lemma ReturningClientIsNotPaired(v: Server, c: Client, name: string, secret: Nonce, challenge: Nonce, former: Bytes)
    requires Honest(v, c) && former != c.certText
    ensures var given := AskCert(c.id, Some(EncodeHex(former)), Some(EncodeHex(c.salt)), false, None);
      var talk := Converse(v, Run(v, EMPTY, [given]), c, name, secret, challenge, [], [], [], []);
      forall who :: who in talk.after.authorized ==> who.cert != c.certText
  {
    var given := AskCert(c.id, Some(EncodeHex(former)), Some(EncodeHex(c.salt)), false, None);
    var t := Run(v, EMPTY, [given]);
    GivesUp(v, given, former);
    hide Run, Step, Honest, Converse;
    assert Quiet([], c.id);
    HonestClientIsPairedIff(v, t, c, name, secret, challenge, [], [], [], []);
    NothingAuthorisedYet(v, t, c, name, secret, challenge);
  }

  lemma GivesUp(v: Server, given: Event, former: Bytes)
    requires given.AskCert? && given.cert == Some(EncodeHex(former)) && given.salt.Some? && !given.trusted
    requires given.typed.None?
    ensures var t := Run(v, EMPTY, [given]);
      given.id in t.sessions && t.sessions[given.id].cert == former && t.authorized == []
  {
    HexRoundTrip(former);
    assert [given][..0] == [] && [given][0] == given;
    assert Run(v, EMPTY, []) == EMPTY;
    assert Run(v, EMPTY, [given]) == Step(v, EMPTY, given).0;
  }

  lemma NothingAuthorisedYet(v: Server, t: State, c: Client, name: string, secret: Nonce, challenge: Nonce)
    requires t.authorized == []
    ensures Converse(v, t, c, name, secret, challenge, [], [], [], []).before.authorized == []
  {
    hide Step, ChallengeText, ResponseText, FirstRequest;
    var asked := Step(v, t, FirstRequest(c)).0;
    OnlySecretsAuthorise(v, t, FirstRequest(c));
    assert !FirstRequest(c).Secret? by {
      FirstIsAsked(c);
    }
    var pin := EnterPin(c.pin, name, c.id);
    OnlySecretsAuthorise(v, asked, pin);
    var keyed := Step(v, asked, pin).0;
    var text := Challenge(c.id, ChallengeText(v, c), secret, challenge);
    OnlySecretsAuthorise(v, keyed, text);
    var first := Step(v, keyed, text);
    OnlySecretsAuthorise(v, first.0, Response(c.id, ResponseText(v, c, PayloadOf(first.1))));
  }

  lemma FirstIsAsked(c: Client)
    ensures FirstRequest(c).AskCert?
  {
  }

  // ---------------------------------------------------------------------------------------------------
  // The handlers and the maps they update
  // ---------------------------------------------------------------------------------------------------

  lemma TakenAndPutBack(sessions: map<string, Session>, id: string, session: Session)
    requires id in sessions
    ensures sessions - {id} - {id} == sessions - {id}
    ensures (sessions - {id})[id := session] == sessions[id := session]
  {
  }

  class PairingServer {
    const server: Server
    var sessions: map<string, Session>
    var authorized: seq<Named>

    function View(): State
      reads this
    {
      State(sessions, authorized)
    }

    constructor (server: Server)
      ensures View() == EMPTY && this.server == server
    {
      this.server := server;
      sessions, authorized := map[], [];
    }

    /** `fail_pair`. */
    method FailPair(id: string) returns (r: Reply)
      modifies this`sessions
      ensures sessions == old(sessions) - {id} && r == Reply(400, Some(false), [])
    {
      sessions := sessions - {id};
      r := Reply(400, Some(false), []);
    }

    /** `getservercert`: on success the caller stores the session, on failure nothing is left to store. */
    method GetServerCert(id: string, given: Session, pin: Bytes) returns (session: Session, r: Reply)
      modifies this`sessions
      ensures match CertPhase(server, given, pin)
              case Kept(s, payload) =>
                session == s && r == Reply(200, Some(true), payload) && sessions == old(sessions)
              case _ => r == Reply(400, Some(false), []) && sessions == old(sessions) - {id}
    {
      session := given;
      if session.phase != NoPhase {
        r := FailPair(id);
        return;
      }
      session := session.(phase := ServerCertGiven);
      if |session.salt| < 32 {
        r := FailPair(id);
        return;
      }
      var salt := DecodeHex(session.salt[..32]);
      if salt.None? {
        r := FailPair(id);
        return;
      }
      session := session.(cipherKey := Some(AesKey(server, salt.value, pin)));
      r := Reply(200, Some(true), server.certText);
    }

    method ClientChallenge(id: string, challenge: Bytes, secret: Nonce, serverChallenge: Nonce) returns (r: Reply)
      requires id in sessions
      modifies this`sessions
      ensures (View(), r) ==
        Keep(old(View()), id, ChallengePhase(server, old(sessions[id]), challenge, secret, serverChallenge))
    {
      var session := sessions[id];
      if session.phase != ServerCertGiven {
        r := FailPair(id);
        return;
      }
      session := session.(phase := ChallengeAnswered);
      if session.cipherKey.None? {
        r := FailPair(id);
        return;
      }
      var clear := server.crypto.decrypt(session.cipherKey.value, challenge);
      clear := clear + server.cert.signature;
      clear := clear + secret;
      var plain := server.crypto.hash(clear) + serverChallenge;
      var encrypted := server.crypto.encrypt(session.cipherKey.value, plain);
      session := session.(serverSecret := secret, serverChallenge := serverChallenge);
      sessions := sessions[id := session];
      r := Reply(200, Some(true), encrypted);
    }

    method ServerChallengeResponse(id: string, response: Bytes) returns (r: Reply)
      requires id in sessions
      modifies this`sessions
      ensures (View(), r) == Keep(old(View()), id, ResponsePhase(server, old(sessions[id]), response))
    {
      var session := sessions[id];
      if session.phase != ChallengeAnswered {
        r := FailPair(id);
        return;
      }
      session := session.(phase := ResponseTaken);
      if session.cipherKey.None? || session.serverSecret == [] {
        r := FailPair(id);
        return;
      }
      session := session.(clientHash := server.crypto.decrypt(session.cipherKey.value, response));
      var signed := server.crypto.sign(server.cert.key, session.serverSecret);
      sessions := sessions[id := session];
      r := Reply(200, Some(true), session.serverSecret + signed);
    }

    method ClientPairingSecret(id: string, pairingSecret: Bytes) returns (r: Reply)
      requires id in sessions
      modifies this
      ensures (View(), r) == PairingSecret(server, old(View()), id, pairingSecret)
    {
      var session := sessions[id];
      if session.phase != ResponseTaken || |pairingSecret| <= 16 {
        r := FailPair(id);
        return;
      }
      var secret, sign := pairingSecret[..16], pairingSecret[16..];
      var x509 := server.crypto.readCert(session.cert);
      if x509.None? {
        r := FailPair(id);
        return;
      }
      var data := session.serverChallenge + x509.value.signature + secret;
      var sameHash := server.crypto.hash(data) == session.clientHash;
      var verified := server.crypto.verify(x509.value, secret, sign);
      if sameHash && verified {
        authorized := authorized + [Named(session.name, session.cert)];
      }
      sessions := sessions - {id};
      r := Reply(200, Some(sameHash && verified), []);
    }

    method AskForServerCert(id: string, cert: string, salt: Option<string>, trusted: bool, typed: Option<Bytes>)
      returns (r: Reply)
      modifies this`sessions
      ensures (View(), r) == AskForCert(server, old(View()), id, cert, salt, trusted, typed)
    {
      hide CertPhase, HexVec;
      var session := NewSession(HexVec(cert));
      if id in sessions {
        session := sessions[id].(name := "", cipherKey := None, clientHash := [], serverSecret := [],
                                 serverChallenge := [], held := false, salt := "", phase := NoPhase);
      }
      assert session == Restarted(old(View()), id, HexVec(cert));
      if salt.None? {
        sessions := sessions[id := session];
        return Threw;
      }
      session := session.(salt := salt.value);
      if trusted || typed.Some? {
        var pin := if trusted then TRUSTED_PIN else typed.value;
        session := session.(name := if trusted then "auto-paired" else "");
        session, r := GetServerCert(id, session, pin);
        if r.status == 200 {
          sessions := sessions[id := session];
        }
      } else {
        sessions := sessions[id := session.(held := true)];
        r := Deferred;
      }
    }

    /** `pair`. */
    method Pair(e: Event) returns (r: Reply)
      requires !e.EnterPin?
      modifies this
      ensures (View(), r) == Step(server, old(View()), e)
    {
      hide CertPhase, ChallengePhase, ResponsePhase, PairingSecret, AskForCert, HexVec, Keep;
      match e {
        case NoUniqueId => r := Reply(400, None, []);
        case PairChallenge(_) => r := Reply(200, Some(true), []);
        case AskCert(id, cert, salt, trusted, typed) =>
          if cert.None? {
            return Threw;
          }
          r := AskForServerCert(id, cert.value, salt, trusted, typed);
        case Challenge(id, text, secret, challenge) =>
          if id !in sessions {
            return Reply(400, None, []);
          }
          r := ClientChallenge(id, HexVec(text), secret, challenge);
        case Response(id, text) =>
          if id !in sessions {
            return Reply(400, None, []);
          }
          r := ServerChallengeResponse(id, HexVec(text));
        case Secret(id, text) =>
          if id !in sessions {
            return Reply(400, None, []);
          }
          r := ClientPairingSecret(id, HexVec(text));
        case OtherPhrase(id) => r := Reply(if id in sessions then 404 else 400, None, []);
        case EnterPin(_, _, _) =>
          assert false;
      }
    }

    method CheckPin(pin: Bytes) returns (ok: bool)
      ensures ok == IsPin(pin)
    {
      if |pin| != 4 {
        return false;
      }
      ok := forall i :: 0 <= i < |pin| ==> 48 <= pin[i] <= 57;
    }

    /** `pin`: works on whichever session the map gives first. */
    method Pin(pin: Bytes, name: string) returns (r: Reply, ghost picked: string)
      modifies this`sessions
      ensures old(sessions) != map[] ==> picked in old(sessions)
      ensures (View(), r) == Step(server, old(View()), EnterPin(pin, name, picked))
    {
      hide CertPhase, IsPin;
      picked := "";
      if |sessions| == 0 {
        return PinAnswer(false, None), picked;
      }
      var first: string :| first in sessions;
      picked := first;
      var ok := CheckPin(pin);
      if !ok {
        return PinAnswer(false, None), picked;
      }
      var session := sessions[first];
      sessions := sessions - {first};
      var answer;
      session, answer := GetServerCert(first, session, pin);
      TakenAndPutBack(old(sessions), first, session.(name := name, held := false));
      if answer.paired == Some(false) {
        return PinAnswer(false, None), picked;
      }
      session := session.(name := name);
      var held := session.held;
      sessions := sessions[first := session.(held := false)];
      r := PinAnswer(held, if held then Some(answer.payload) else None);
    }
  }
}
