/**
 * A grant's way from the server that issues it (internal/server/server.go) to the agent that lets a
 * request in (internal/agent/agent.go), with an ideal signature: a signature verifies only if the server
 * made it. Tokens reach the agent from anywhere; the agent's clock is its own.
 */
module Authorisation {
  import opened Wrappers
  import opened Claims
  import opened Base64Url
  import G = Grants
  import opened Protocol

  datatype Node = Node(enabled: bool, online: bool, tlsReady: bool)

  /** An access session with the address it was opened from, and its tests. */
  datatype Session = Session(ip: string, expires: int)

  datatype Test = Test(id: string, sessionId: string)

  /**
   * A `grants` handler underway, after each of its three queries: the session, the test, the node. The
   * numbers say which moment of history each query saw.
   */
  datatype Pending =
    | Accessed(sessionId: string, ip: string, access: nat)
    | Owned(sessionId: string, ip: string, access: nat, testId: string, owned: nat)
    | Cleared(sessionId: string, ip: string, access: nat, testId: string, owned: nat,
              nodeId: string, cleared: nat, scopes: seq<string>)

  /** A grant that was handed out: its claims, when it was stamped, and the handler that stamped it. */
  datatype Issue = Issue(claims: Claims, stamped: int, handler: Pending)

  datatype Moment = Moment(nodes: map<string, Node>, sessions: map<string, Session>, tests: set<Test>, now: int)

  datatype World = World(
    present: Moment,
    past: seq<Moment>,  // every moment before the present one
    pending: map<nat, Pending>,
    issues: seq<Issue>,
    signatures: set<(string, seq<Byte>)>
  )

  datatype Event =
    | Change(next: Moment)  // whatever else the server does to its rows and clock
    | QuerySession(h: nat, sessionId: string)
    | QueryTest(h: nat, testId: string)
    | QueryNode(h: nat, nodeId: string, scopes: seq<string>)
    | Stamp(h: nat, keyId: string, random: seq<Byte>)

  predicate Available(n: Node) {
    n.enabled && n.online && n.tlsReady
  }

  predicate LiveSession(m: Moment, sessionId: string) {
    sessionId in m.sessions && m.now <= m.sessions[sessionId].expires
  }

  function ServerClaims(p: Pending, keyId: string, now: int): Claims
    requires p.Cleared?
  {
    Claims(0, keyId, p.nodeId, p.sessionId, p.testId, p.ip, p.scopes, SIGNED_DOWNLOAD, SIGNED_UPLOAD, 4,
           now - 5, now + 60, "")
  }

  /** The payload text of the server's token for the given claims. */
  function Payload(k: G.Suite, c: Claims): string {
    Encode(k.marshal(c))
  }

  function Step(k: G.Suite, w: World, e: Event): World {
    match e
    case Change(next) =>
      if next.now < w.present.now then w else w.(present := next, past := w.past + [w.present])
    case QuerySession(h, sessionId) =>
      if h in w.pending || !LiveSession(w.present, sessionId) then w
      else w.(pending := w.pending[h := Accessed(sessionId, w.present.sessions[sessionId].ip, |w.past|)])
    case QueryTest(h, testId) =>
      if h !in w.pending || !w.pending[h].Accessed? || Test(testId, w.pending[h].sessionId) !in w.present.tests then w
      else
        var p := w.pending[h];
        w.(pending := w.pending[h := Owned(p.sessionId, p.ip, p.access, testId, |w.past|)])
    case QueryNode(h, nodeId, scopes) =>
      if h !in w.pending || !w.pending[h].Owned? then w
      else if nodeId !in w.present.nodes || !Available(w.present.nodes[nodeId]) then w
      else
        var p := w.pending[h];
        w.(pending := w.pending[h := Cleared(p.sessionId, p.ip, p.access, p.testId, p.owned, nodeId, |w.past|, scopes)])
    case Stamp(h, keyId, random) =>
      if h !in w.pending || !w.pending[h].Cleared? || |random| != 16 then w
      else
        var p, now := w.pending[h], w.present.now;
        var c := G.Filled(ServerClaims(p, keyId, now), random);
        var message := G.Signed(Payload(k, c));
        w.(pending := w.pending - {h},
           issues := w.issues + [Issue(c, now, p)],
           signatures := w.signatures + {(message, k.sign(message))})
  }

  function Run(k: G.Suite, w: World, es: seq<Event>): World
    decreases |es|
  {
    if es == [] then w else Run(k, Step(k, w, es[0]), es[1..])
  }

  predicate Initial(w: World) {
    w.past == [] && w.pending == map[] && w.issues == [] && w.signatures == {}
  }

  /** Moment number `i` of the run so far. */
  function At(w: World, i: nat): Moment
    requires i <= |w.past|
  {
    if i == |w.past| then w.present else w.past[i]
  }

  // ----- the agent -----

  datatype Agent = Agent(nodeId: string, tlsReady: bool, allowedOrigin: string)

  datatype Request = Request(token: string, peer: Option<string>, origin: string, range: string)

  datatype Verdict = Allowed(claims: Claims) | TlsUnavailable | Forbidden | RangeUnsupported

  /** `authorize`: `peer` is the request's parsed and unmapped address. */
  function Authorize(k: G.Suite, a: Agent, r: Request, scope: string, now: int): Verdict {
    if !a.tlsReady then TlsUnavailable
    else if r.origin == "" || r.origin != a.allowedOrigin then Forbidden
    else
      var c := G.Verify(k, r.token, now);
      if c.Err? || c.value.nodeId != a.nodeId || scope !in c.value.scopes then Forbidden
      else if r.peer != Some(c.value.clientIp) then Forbidden
      else if r.range != "" then RangeUnsupported
      else Allowed(c.value)
  }

  /** The presented token is no forgery: if its signature verifies, the server made it in this run. */
  predicate NotForged(k: G.Suite, w: World, token: string) {
    var p := G.Split(token, '.');
    |p| == 3 && Decode(p[2]).Some? && k.verify(G.Signed(p[1]), Decode(p[2]).value) ==>
      (G.Signed(p[1]), Decode(p[2]).value) in w.signatures
  }

  // ----- what the server's history keeps -----

  /** Each query the handler has made saw what it reports, at a moment of this history. */
  predicate Justified(w: World, p: Pending) {
    && p.access <= |w.past|
    && LiveSession(At(w, p.access), p.sessionId) && At(w, p.access).sessions[p.sessionId].ip == p.ip
    && (!p.Accessed? ==>
          p.access <= p.owned <= |w.past| && Test(p.testId, p.sessionId) in At(w, p.owned).tests)
    && (p.Cleared? ==>
          && p.owned <= p.cleared <= |w.past|
          && p.nodeId in At(w, p.cleared).nodes && Available(At(w, p.cleared).nodes[p.nodeId]))
  }

  predicate PendingJustified(w: World) {
    forall h :: h in w.pending ==> Justified(w, w.pending[h])
  }

  /** The grant says what its handler found and was stamped no earlier than the node was found available. */
  predicate IssueJustified(w: World, i: Issue) {
    var c, p := i.claims, i.handler;
    && p.Cleared? && Justified(w, p)
    && c.sessionId == p.sessionId && c.testId == p.testId && c.clientIp == p.ip && c.nodeId == p.nodeId
    && c.scopes == p.scopes
    && At(w, p.cleared).now <= i.stamped
    && c.notBefore == i.stamped - 5 && c.expires == i.stamped + 60
    && c.maxDownload == SIGNED_DOWNLOAD && c.maxUpload == SIGNED_UPLOAD && c.maxStreams == 4 && c.version == 1
  }

  predicate IssuesJustified(w: World) {
    forall i :: i in w.issues ==> IssueJustified(w, i)
  }

  /** Every signature was made over the payload of some issued grant. */
  ghost predicate SignaturesFromIssues(k: G.Suite, w: World) {
    forall s :: s in w.signatures ==> exists i :: i in w.issues && s.0 == G.Signed(Payload(k, i.claims))
  }

  ghost predicate Inv(k: G.Suite, w: World) {
    && (forall i :: 0 <= i < |w.past| ==> w.past[i].now <= w.present.now)
    && PendingJustified(w)
    && IssuesJustified(w)
    && SignaturesFromIssues(k, w)
  }

  /** History is only ever added to. */
  predicate Extends(w: World, t: World) {
    |w.past| <= |t.past| && forall i: nat :: i <= |w.past| ==> At(t, i) == At(w, i)
  }

  lemma StillJustified(w: World, t: World)
    requires Extends(w, t)
    ensures forall p :: Justified(w, p) ==> Justified(t, p)
    ensures IssuesJustified(w) && t.issues == w.issues ==> IssuesJustified(t)
  {
  }

  lemma ChangeKeepsInv(k: G.Suite, w: World, next: Moment)
    requires Inv(k, w)
    ensures Inv(k, Step(k, w, Change(next)))
  {
    var t := Step(k, w, Change(next));
    assert Extends(w, t);
    StillJustified(w, t);
  }

  lemma QueryIsJustified(k: G.Suite, w: World, e: Event)
    requires PendingJustified(w) && (e.QuerySession? || e.QueryTest? || e.QueryNode?)
    ensures PendingJustified(Step(k, w, e))
  {
    var t := Step(k, w, e);
    assert Extends(w, t);
    forall h | h in t.pending ensures Justified(t, t.pending[h]) {
      if h == e.h {
        assert Justified(w, t.pending[h]);
      }
    }
  }

  lemma QueryKeepsInv(k: G.Suite, w: World, e: Event)
    requires Inv(k, w) && (e.QuerySession? || e.QueryTest? || e.QueryNode?)
    ensures Inv(k, Step(k, w, e))
  {
    QueryIsJustified(k, w, e);
    StillJustified(w, Step(k, w, e));
  }

  /** The issue stamped for a cleared handler. */
  function NewIssue(w: World, h: nat, keyId: string, random: seq<Byte>): Issue
    requires h in w.pending && w.pending[h].Cleared? && |random| == 16
  {
    var p, now := w.pending[h], w.present.now;
    Issue(G.Filled(ServerClaims(p, keyId, now), random), now, p)
  }

  lemma NewIssueJustified(w: World, h: nat, keyId: string, random: seq<Byte>)
    requires PendingJustified(w) && (forall i :: 0 <= i < |w.past| ==> w.past[i].now <= w.present.now)
    requires h in w.pending && w.pending[h].Cleared? && |random| == 16
    ensures IssueJustified(w, NewIssue(w, h, keyId, random))
  {
    assert Justified(w, w.pending[h]);
  }

  lemma OneMoreIssue(w: World, t: World, i: Issue)
    requires IssuesJustified(w) && IssueJustified(w, i) && t.issues == w.issues + [i] && Extends(w, t)
    ensures IssuesJustified(t)
  {
    StillJustified(w, t);
    forall j | j in t.issues ensures IssueJustified(t, j) {
      assert IssueJustified(w, j) && Justified(w, j.handler);
    }
  }

  lemma StampedIsJustified(k: G.Suite, w: World, h: nat, keyId: string, random: seq<Byte>)
    requires Inv(k, w) && h in w.pending && w.pending[h].Cleared? && |random| == 16
    ensures IssuesJustified(Step(k, w, Stamp(h, keyId, random)))
    ensures PendingJustified(Step(k, w, Stamp(h, keyId, random)))
  {
    var t := Step(k, w, Stamp(h, keyId, random));
    NewIssueJustified(w, h, keyId, random);
    OneMoreIssue(w, t, NewIssue(w, h, keyId, random));
    StillJustified(w, t);
  }

  lemma StampedIsSigned(k: G.Suite, w: World, h: nat, keyId: string, random: seq<Byte>)
    requires SignaturesFromIssues(k, w) && h in w.pending && w.pending[h].Cleared? && |random| == 16
    ensures SignaturesFromIssues(k, Step(k, w, Stamp(h, keyId, random)))
  {
    var t := Step(k, w, Stamp(h, keyId, random));
    var made := t.issues[|w.issues|];
    forall s | s in t.signatures ensures exists i :: i in t.issues && s.0 == G.Signed(Payload(k, i.claims)) {
      if s in w.signatures {
        var i :| i in w.issues && s.0 == G.Signed(Payload(k, i.claims));
        assert i in t.issues;
      } else {
        assert made in t.issues && s.0 == G.Signed(Payload(k, made.claims));
      }
    }
  }

  lemma StepKeepsInv(k: G.Suite, w: World, e: Event)
    requires Inv(k, w)
    ensures Inv(k, Step(k, w, e))
  {
    match e
    case Change(next) => ChangeKeepsInv(k, w, next);
    case QuerySession(_, _) => QueryKeepsInv(k, w, e);
    case QueryTest(_, _) => QueryKeepsInv(k, w, e);
    case QueryNode(_, _, _) => QueryKeepsInv(k, w, e);
    case Stamp(h, keyId, random) =>
      if h in w.pending && w.pending[h].Cleared? && |random| == 16 {
        StampedIsJustified(k, w, h, keyId, random);
        StampedIsSigned(k, w, h, keyId, random);
      }
  }

  lemma {:induction false} RunKeepsInv(k: G.Suite, w: World, es: seq<Event>)
    requires Inv(k, w)
    ensures Inv(k, Run(k, w, es))
    decreases |es|
  {
    if es != [] {
      StepKeepsInv(k, w, es[0]);
      RunKeepsInv(k, Step(k, w, es[0]), es[1..]);
    }
  }

  /** A token that verifies carries the claims of an issued grant. */
  lemma {:induction false} VerifiedWasIssued(k: G.Suite, w: World, token: string, now: int)
    requires G.JsonLaw(k) && NotForged(k, w, token) && SignaturesFromIssues(k, w)
    requires G.Verify(k, token, now).Ok?
    ensures exists i :: i in w.issues && i.claims == G.Verify(k, token, now).value
  {
    G.AcceptedIsCanonical(k, token, now);
    var p := G.Split(token, '.');
    var b, sig := Decode(p[1]).value, Decode(p[2]).value;
    assert (G.Signed(Encode(b)), sig) in w.signatures;
    var i :| i in w.issues && G.Signed(Encode(b)) == G.Signed(Payload(k, i.claims));
    assert Encode(b) == Payload(k, i.claims) by {
      assert G.Signed(Encode(b))[6..] == Encode(b);
      assert G.Signed(Payload(k, i.claims))[6..] == Payload(k, i.claims);
    }
    RoundTrip(b);
    RoundTrip(k.marshal(i.claims));
    assert b == k.marshal(i.claims);
  }

  /**
   * Soundness from end to end: whenever an agent lets a request in at its time `now`, the server stamped
   * that grant at some T with T - 5 <= now <= T + 60, for this node, the request's address and a listed
   * scope, after finding, at moments of the same run no later than T, a live session opened from that
   * address, a test of that session, and the node enabled, online and TLS-ready.
   */
  lemma {:induction false} AllowedWasGranted(k: G.Suite, w0: World, es: seq<Event>, a: Agent, r: Request,
                                             scope: string, now: int)
    requires G.JsonLaw(k) && Initial(w0) && NotForged(k, Run(k, w0, es), r.token)
    requires Authorize(k, a, r, scope, now).Allowed?
    ensures var w := Run(k, w0, es);
            exists i :: i in w.issues
              && i.claims == Authorize(k, a, r, scope, now).claims
              && i.stamped - 5 <= now <= i.stamped + 60
              && i.claims.nodeId == a.nodeId && r.peer == Some(i.claims.clientIp) && scope in i.claims.scopes
              && IssueJustified(w, i)
  {
    var w := Run(k, w0, es);
    RunKeepsInv(k, w0, es);
    VerifiedWasIssued(k, w, r.token, now);
    var i :| i in w.issues && i.claims == G.Verify(k, r.token, now).value;
    assert IssueJustified(w, i);
  }

  /**
   * And complete: the token the server signs is let in, at a TLS-ready agent of its node, from its address
   * and for a listed scope, if and only if the agent's clock is in the window.
   */
  lemma GrantedIsAllowedIff(k: G.Suite, p: Pending, keyId: string, stamped: int, random: seq<Byte>,
                            a: Agent, scope: string, now: int)
    requires G.SignatureLaw(k) && G.JsonLaw(k) && |random| == 16 && p.Cleared?
    requires a.tlsReady && a.allowedOrigin != "" && a.nodeId == p.nodeId && scope in p.scopes
    ensures var c := ServerClaims(p, keyId, stamped);
            var token := G.Sign(k, c, Some(random));
            && token.Ok?
            && var r := Request(token.value, Some(p.ip), a.allowedOrigin, "");
            && Authorize(k, a, r, scope, now)
               == if stamped - 5 <= now <= stamped + 60 then Allowed(G.Filled(c, random)) else Forbidden
  {
    G.VerifySign(k, ServerClaims(p, keyId, stamped), random, now);
  }

  // ----- a whole grant -----

  /** The world before anything was granted. */
  function World0(m: Moment): World {
    World(m, [], map[], [], {})
  }

  /** One handler's four steps. */
  function Flow(sessionId: string, testId: string, nodeId: string, scopes: seq<string>, keyId: string,
                random: seq<Byte>): seq<Event> {
    [QuerySession(0, sessionId), QueryTest(0, testId), QueryNode(0, nodeId, scopes), Stamp(0, keyId, random)]
  }

  function FlowPending(m: Moment, sessionId: string, testId: string, nodeId: string, scopes: seq<string>): Pending
    requires sessionId in m.sessions
  {
    Cleared(sessionId, m.sessions[sessionId].ip, 0, testId, 0, nodeId, 0, scopes)
  }

  lemma RunOfFour(k: G.Suite, w: World, es: seq<Event>)
    requires |es| == 4
    ensures Run(k, w, es) == Step(k, Step(k, Step(k, Step(k, w, es[0]), es[1]), es[2]), es[3])
  {
    var w1 := Step(k, w, es[0]);
    var w2 := Step(k, w1, es[1]);
    var w3 := Step(k, w2, es[2]);
    assert es[1..][1..] == es[2..] && es[2..][1..] == es[3..] && es[3..][1..] == [];
    assert Run(k, w, es) == Run(k, w1, es[1..]);
    assert Run(k, w1, es[1..]) == Run(k, w2, es[2..]);
    assert Run(k, w2, es[2..]) == Run(k, w3, es[3..]);
    assert Run(k, w3, es[3..]) == Run(k, Step(k, w3, es[3]), []);
  }

  /** What the flow leaves behind: the one issue, and the signature of its token. */
  lemma FlowIssues(k: G.Suite, m: Moment, sessionId: string, testId: string, nodeId: string, scopes: seq<string>,
                   keyId: string, random: seq<Byte>)
    requires LiveSession(m, sessionId) && Test(testId, sessionId) in m.tests && |random| == 16
    requires nodeId in m.nodes && Available(m.nodes[nodeId])
    ensures var w := Run(k, World0(m), Flow(sessionId, testId, nodeId, scopes, keyId, random));
            var p := FlowPending(m, sessionId, testId, nodeId, scopes);
            var c := G.Filled(ServerClaims(p, keyId, m.now), random);
            var message := G.Signed(Payload(k, c));
            w.issues == [Issue(c, m.now, p)] && w.signatures == {(message, k.sign(message))}
  {
    RunOfFour(k, World0(m), Flow(sessionId, testId, nodeId, scopes, keyId, random));
  }

  /** The server's own token is no forgery where its signature is on record. */
  lemma OwnTokenNotForged(k: G.Suite, w: World, c: Claims, random: seq<Byte>)
    requires |random| == 16
    requires var message := G.Signed(Payload(k, G.Filled(c, random))); (message, k.sign(message)) in w.signatures
    ensures G.Sign(k, c, Some(random)).Ok? && NotForged(k, w, G.Sign(k, c, Some(random)).value)
  {
    var payload := Payload(k, G.Filled(c, random));
    var signature := k.sign(G.Signed(payload));
    G.EncodedHasNoDot(k.marshal(G.Filled(c, random)));
    G.EncodedHasNoDot(signature);
    G.SplitToken(payload, Encode(signature));
    RoundTrip(signature);
  }

  /**
   * From end to end the other way: once the server finds a live session, a test of it and an available
   * node, the token it hands out meets every premise of AllowedWasGranted and is let in, at a TLS-ready
   * agent of the node, from the session's address and for a listed scope, exactly in its window.
   */
  lemma FlowIsAllowedIff(k: G.Suite, m: Moment, sessionId: string, testId: string, nodeId: string,
                         scopes: seq<string>, keyId: string, random: seq<Byte>, a: Agent, scope: string, now: int)
    requires G.SignatureLaw(k) && G.JsonLaw(k) && |random| == 16
    requires LiveSession(m, sessionId) && Test(testId, sessionId) in m.tests
    requires nodeId in m.nodes && Available(m.nodes[nodeId])
    requires a.tlsReady && a.allowedOrigin != "" && a.nodeId == nodeId && scope in scopes
    ensures var w := Run(k, World0(m), Flow(sessionId, testId, nodeId, scopes, keyId, random));
            var p := FlowPending(m, sessionId, testId, nodeId, scopes);
            var token := G.Sign(k, ServerClaims(p, keyId, m.now), Some(random));
            && Initial(World0(m)) && token.Ok? && NotForged(k, w, token.value)
            && var r := Request(token.value, Some(p.ip), a.allowedOrigin, "");
            && (Authorize(k, a, r, scope, now).Allowed? <==> m.now - 5 <= now <= m.now + 60)
  {
    var p := FlowPending(m, sessionId, testId, nodeId, scopes);
    var w := Run(k, World0(m), Flow(sessionId, testId, nodeId, scopes, keyId, random));
    FlowIssues(k, m, sessionId, testId, nodeId, scopes, keyId, random);
    OwnTokenNotForged(k, w, ServerClaims(p, keyId, m.now), random);
    GrantedIsAllowedIff(k, p, keyId, m.now, random, a, scope, now);
  }

  // ----- every answer of the agent -----

  /** A request is let in if and only if every one of the agent's tests passes. */
  lemma AllowedIff(k: G.Suite, a: Agent, r: Request, scope: string, now: int, c: Claims)
    ensures Authorize(k, a, r, scope, now) == Allowed(c) <==>
              && a.tlsReady && r.origin != "" && r.origin == a.allowedOrigin && r.range == ""
              && (exists payload, signature :: G.Spells(k, r.token, payload, signature, c))
              && c.version == 1 && c.notBefore <= now <= c.expires && c.nonce != ""
              && c.nodeId == a.nodeId && scope in c.scopes && r.peer == Some(c.clientIp)
  {
    G.VerifyIff(k, r.token, c, now);
  }

  /** And otherwise the answer says why not: 503 without TLS, 416 if only the Range header is in the way, else 403. */
  lemma RefusedWhy(k: G.Suite, a: Agent, r: Request, scope: string, now: int)
    ensures Authorize(k, a, r, scope, now) == TlsUnavailable <==> !a.tlsReady
    ensures Authorize(k, a, r, scope, now) == RangeUnsupported <==>
              a.tlsReady && r.range != "" && Authorize(k, a, r.(range := ""), scope, now).Allowed?
  {
  }

  // ----- nonces -----

  /** The random bytes of the grants stamped in a run, in order. */
  function Draws(k: G.Suite, w: World, es: seq<Event>): seq<seq<Byte>>
    decreases |es|
  {
    if es == [] then []
    else (if |Step(k, w, es[0]).issues| > |w.issues| && es[0].Stamp? then [es[0].random] else [])
         + Draws(k, Step(k, w, es[0]), es[1..])
  }

  /** The issues from number `from` on carry the nonces of the given random bytes. */
  predicate NoncesOf(issues: seq<Issue>, from: nat, draws: seq<seq<Byte>>) {
    && |issues| == from + |draws|
    && forall i :: 0 <= i < |draws| ==> issues[from + i].claims.nonce == Encode(draws[i])
  }

  lemma {:induction false} RunExtendsIssues(k: G.Suite, w: World, es: seq<Event>)
    ensures w.issues <= Run(k, w, es).issues
    decreases |es|
  {
    if es != [] {
      RunExtendsIssues(k, Step(k, w, es[0]), es[1..]);
    }
  }

  /** A stamping step adds one issue, with the nonce of its random bytes; no other step adds any. */
  lemma StampDraws(k: G.Suite, w: World, e: Event)
    ensures var next := Step(k, w, e);
            if |next.issues| > |w.issues| && e.Stamp?
            then |next.issues| == |w.issues| + 1 && w.issues <= next.issues
                 && next.issues[|w.issues|].claims.nonce == Encode(e.random)
            else next.issues == w.issues
  {
    if e.Stamp? && |Step(k, w, e).issues| > |w.issues| {
      G.OnlyDefaultsFilled(ServerClaims(w.pending[e.h], e.keyId, w.present.now), e.random);
    }
  }

  lemma NoncesCons(issues: seq<Issue>, from: nat, first: seq<Byte>, rest: seq<seq<Byte>>)
    requires NoncesOf(issues, from + 1, rest) && issues[from].claims.nonce == Encode(first)
    ensures NoncesOf(issues, from, [first] + rest)
  {
    forall i | 0 <= i < 1 + |rest| ensures issues[from + i].claims.nonce == Encode(([first] + rest)[i]) {
      if i > 0 {
        assert issues[from + 1 + (i - 1)].claims.nonce == Encode(rest[i - 1]);
      }
    }
  }

  lemma {:induction false} NoncesDrawn(k: G.Suite, w: World, es: seq<Event>)
    ensures NoncesOf(Run(k, w, es).issues, |w.issues|, Draws(k, w, es))
    decreases |es|
  {
    if es != [] {
      var next := Step(k, w, es[0]);
      StampDraws(k, w, es[0]);
      NoncesDrawn(k, next, es[1..]);
      RunExtendsIssues(k, next, es[1..]);
      if |next.issues| > |w.issues| {
        NoncesCons(Run(k, w, es).issues, |w.issues|, es[0].random, Draws(k, next, es[1..]));
      } else {
        assert Draws(k, w, es) == Draws(k, next, es[1..]);
      }
    }
  }

  /** In every run two grants share a nonce if and only if they were stamped with the same random bytes. */
  lemma NoncesDistinctIff(k: G.Suite, w0: World, es: seq<Event>, i: nat, j: nat)
    requires Initial(w0) && i < |Draws(k, w0, es)| && j < |Draws(k, w0, es)|
    ensures var w, draws := Run(k, w0, es), Draws(k, w0, es);
            && |w.issues| == |draws|
            && (w.issues[i].claims.nonce == w.issues[j].claims.nonce <==> draws[i] == draws[j])
  {
    NoncesDrawn(k, w0, es);
    RoundTrip(Draws(k, w0, es)[i]);
    RoundTrip(Draws(k, w0, es)[j]);
  }
}
