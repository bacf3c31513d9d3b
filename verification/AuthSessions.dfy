/** Login sessions: one map from device hash to session, which registration,
    the OAuth callback, success notifications and status polls update. */
module AuthSessions {
  import opened Basics

  const SECOND: nat := 1_000_000_000   // clock readings are in nanoseconds
  const DAY: nat := 24 * 60 * 60 * SECOND

  datatype Creds = Creds(token: string, account: string, key: string)

  datatype Session = Session(
    deviceHash: string, clientId: string,
    token: Option<string>, account: Option<string>, key: Option<string>,
    createdAt: int, expiresAt: int)

  type Sessions = map<string, Session>

  /** A whole request with the clock readings it makes; a status poll sweeps at
      `swept` and reads the clock once more at `now`. `client` is the name a
      session gets if the request has to create one. */
  datatype Request =
    | Register(device: string, client: string, now: int)
    | Check(device: string, client: string, swept: int, now: int)
    | Notify(device: string, client: string, creds: Creds, now: int)
    | Callback(device: string, client: string, creds: Creds, now: int)

  datatype Status = Status(complete: bool, creds: Creds, expiresIn: int, sessionId: string)

  predicate Temporary(device: string) {
    StartsWith(device, "temp_")
  }

  function Pending(device: string, client: string, now: int): Session {
    Session(device, client, None, None, None, now, now + DAY)
  }

  function Filled(s: Session, c: Creds): Session {
    s.(token := Some(c.token), account := Some(c.account), key := Some(c.key))
  }

  function Ensured(m: Sessions, device: string, client: string, now: int): Sessions {
    if device in m then m else m[device := Pending(device, client, now)]
  }

  function Updated(m: Sessions, device: string, client: string, c: Creds, now: int): Sessions {
    var session := if device in m then m[device] else Pending(device, client, now);
    m[device := Filled(session, c)]
  }

  function Cleaned(m: Sessions, now: int): Sessions {
    map d | d in m && m[d].expiresAt >= now :: m[d]
  }

  /** The sessions a temporary callback completes besides its own. */
  function Waiting(m: Sessions): set<string> {
    set d | d in m && !Temporary(d) && m[d].token.None?
  }

  function FilledAll(m: Sessions, todo: set<string>, c: Creds): Sessions {
    map d | d in m :: if d in todo then Filled(m[d], c) else m[d]
  }

  function Apply(m: Sessions, r: Request): Sessions {
    match r
    case Register(d, client, now) => Ensured(m, d, client, now)
    case Check(d, client, swept, now) =>
      var kept := Cleaned(m, swept);
      if d == "" then kept else Ensured(kept, d, client, now)
    case Notify(d, client, c, now) => Updated(m, d, client, c, now)
    case Callback(d, client, c, now) =>
      var own := Updated(m, d, client, c, now);
      if Temporary(d) then FilledAll(own, Waiting(own), c) else own
  }

  function Run(run: seq<Request>): Sessions {
    if run == [] then map[] else Apply(Run(run[..|run| - 1]), run[|run| - 1])
  }

  // -------------------------------------------------------------- the handler

  const NO_CREDS := Creds("", "", "")

  function Default(o: Option<string>): string {
    if o.Some? then o.value else ""
  }

  class AuthHandler {
    var sessions: Sessions

    constructor ()
      ensures sessions == map[]
    {
      sessions := map[];
    }

    method UpdateSession(device: string, client: string, c: Creds, now: int)
      modifies this
      ensures sessions == Updated(old(sessions), device, client, c, now)
    {
      if device in sessions {
        var s := sessions[device];
        sessions := sessions[device := s.(token := Some(c.token), account := Some(c.account), key := Some(c.key))];
      } else {
        var s := Session(device, client, Some(c.token), Some(c.account), Some(c.key), now, now + DAY);
        sessions := sessions[device := s];
      }
    }

    method CleanExpiredSessions(now: int)
      modifies this
      ensures sessions == Cleaned(old(sessions), now)
    {
      ghost var before := sessions;
      var expired := set d | d in sessions && sessions[d].expiresAt < now;
      var todo := expired;
      while todo != {}
        invariant todo <= expired && sessions == before - (expired - todo)
        decreases |todo|
      {
        var id := Pick(todo);
        sessions := sessions - {id};
        todo := todo - {id};
      }
      assert expired - todo == expired;
    }

    method RegisterSession(device: string, client: string, now: int)
      modifies this
      ensures sessions == Apply(old(sessions), Register(device, client, now))
    {
      if device !in sessions {
        sessions := sessions[device := Session(device, client, None, None, None, now, now + DAY)];
      }
    }

    /** The answer is about the session that survives the sweep, if any. */
    method CheckAuthStatus(device: string, client: string, swept: int, now: int) returns (r: Status)
      modifies this
      ensures sessions == Apply(old(sessions), Check(device, client, swept, now))
      ensures r == StatusOf(Cleaned(old(sessions), swept), device, now)
    {
      CleanExpiredSessions(swept);
      if device in sessions {
        var s := sessions[device];
        if s.token.Some? {
          var left := if s.expiresAt > now then (s.expiresAt - now) / SECOND else 0;
          r := Status(true, Creds(Default(s.token), Default(s.account), Default(s.key)), left, s.deviceHash);
        } else {
          r := Status(false, NO_CREDS, 0, "");
        }
      } else {
        if device != "" {
          sessions := sessions[device := Session(device, client, None, None, None, now, now + DAY)];
        }
        r := Status(false, NO_CREDS, 0, device);
      }
    }

    /** The part of the callback after the code exchange succeeded. */
    method OAuthCallback(device: string, client: string, c: Creds, now: int)
      modifies this
      ensures sessions == Apply(old(sessions), Callback(device, client, c, now))
    {
      UpdateSession(device, client, c, now);
      if Temporary(device) {
        ghost var own := sessions;
        var pending := Waiting(sessions);
        var todo := pending;
        while todo != {}
          invariant todo <= pending && sessions == FilledAll(own, pending - todo, c)
          decreases |todo|
        {
          var id := Pick(todo);
          UpdateSession(id, client, c, now);
          todo := todo - {id};
        }
        assert pending - todo == pending;
      }
    }
  }

  function StatusOf(m: Sessions, device: string, now: int): Status {
    if device !in m then Status(false, NO_CREDS, 0, device)
    else if m[device].token.None? then Status(false, NO_CREDS, 0, "")
    else
      var s := m[device];
      Status(true, Creds(s.token.value, Default(s.account), Default(s.key)),
             if s.expiresAt > now then (s.expiresAt - now) / SECOND else 0, s.deviceHash)
  }

  // ------------------------------------- what the requests say about a session

  predicate Creates(r: Request, d: string) {
    r.device == d && (r.Check? ==> d != "")
  }

  /** A poll that removes every session created at `created`. */
  predicate Sweeps(r: Request, created: int) {
    r.Check? && created + 86_400_000_000_000 < r.swept
  }

  predicate Direct(r: Request, d: string) {
    (r.Notify? || r.Callback?) && r.device == d
  }

  predicate FansOut(r: Request, d: string) {
    r.Callback? && Temporary(r.device) && !Temporary(d)
  }

  predicate Hits(r: Request, d: string) {
    Direct(r, d) || FansOut(r, d)
  }

  /** The request that created device `d`'s current session: the first able to,
      after the last sweep that took an earlier one. */
  function Birth(run: seq<Request>, d: string): (b: Option<nat>)
    ensures b.Some? ==> b.value < |run| && Creates(run[b.value], d)
  {
    if run == [] then None
    else
      var n := |run| - 1;
      var before := Birth(run[..n], d);
      if before.Some? && !Sweeps(run[n], run[before.value].now) then before
      else if Creates(run[n], d) then Some(n)
      else None
  }

  predicate LastDirect(run: seq<Request>, d: string, i: nat)
    requires i < |run|
  {
    Direct(run[i], d) && forall j :: i < j < |run| ==> !Direct(run[j], d)
  }

  predicate FirstFanOut(run: seq<Request>, b: nat, d: string, i: nat)
    requires b <= i < |run|
  {
    && FansOut(run[i], d)
    && (forall j :: b <= j < |run| ==> !Direct(run[j], d))
    && (forall j :: b <= j < i ==> !FansOut(run[j], d))
  }

  /** Request `i` is where a session born at `b` has its credentials from: the
      last update addressed to it, or, with none, the first temporary callback. */
  predicate Source(run: seq<Request>, b: nat, d: string, i: nat) {
    b <= i < |run| && (LastDirect(run, d, i) || FirstFanOut(run, b, d, i))
  }

  predicate NeverHit(run: seq<Request>, b: nat, d: string) {
    forall i :: b <= i < |run| ==> !Hits(run[i], d)
  }

  predicate HasCreds(s: Session, c: Creds) {
    s.token == Some(c.token) && s.account == Some(c.account) && s.key == Some(c.key)
  }

  predicate NoCreds(s: Session) {
    s.token.None? && s.account.None? && s.key.None?
  }

  ghost predicate CredsFromSource(run: seq<Request>, b: nat, d: string, s: Session) {
    exists i: nat :: Source(run, b, d, i) && HasCreds(s, run[i].creds)
  }

  /** A session is what its birth and the hits since then make it. */
  ghost predicate Follows(run: seq<Request>, b: nat, d: string, s: Session)
    requires b < |run|
  {
    && s.deviceHash == d && s.clientId == run[b].client
    && s.createdAt == run[b].now && s.expiresAt == run[b].now + 86_400_000_000_000
    && if NeverHit(run, b, d) then NoCreds(s) else CredsFromSource(run, b, d, s)
  }

  function Kept(m: Sessions, r: Request): Sessions {
    if r.Check? then Cleaned(m, r.swept) else m
  }

  lemma Born(run: seq<Request>, m: Sessions, d: string)
    requires run != [] && Creates(run[|run| - 1], d) && d !in Kept(m, run[|run| - 1])
    ensures d in Apply(m, run[|run| - 1]) && Follows(run, |run| - 1, d, Apply(m, run[|run| - 1])[d])
  {
    var n := |run| - 1;
    var r := run[n];
    if Direct(r, d) {
      assert Source(run, n, d, n);
      assert HasCreds(Apply(m, r)[d], r.creds);
    }
  }

  /** What a request does to one session that it does not sweep away. */
  function Touched(s: Session, r: Request, d: string): Session {
    if Direct(r, d) || (FansOut(r, d) && s.token.None?) then Filled(s, r.creds) else s
  }

  lemma AppliedTo(m: Sessions, r: Request, d: string)
    requires d in Kept(m, r)
    ensures d in Apply(m, r) && Apply(m, r)[d] == Touched(m[d], r, d)
  {
  }

  lemma CredsExtend(run: seq<Request>, r: Request, b: nat, d: string, s: Session)
    requires b < |run| && !NeverHit(run, b, d) && CredsFromSource(run, b, d, s)
    ensures CredsFromSource(run + [r], b, d, Touched(s, r, d))
  {
    var whole := run + [r];
    if Direct(r, d) {
      assert Source(whole, b, d, |run|) && HasCreds(Touched(s, r, d), r.creds);
    } else {
      var i: nat :| Source(run, b, d, i) && HasCreds(s, run[i].creds);
      assert Touched(s, r, d) == s && whole[i] == run[i];
      assert Source(whole, b, d, i);
    }
  }

  /** Whatever request comes next, a session that outlives it follows the
      longer history. */
  lemma FollowsExtends(run: seq<Request>, r: Request, b: nat, d: string, s: Session)
    requires b < |run| && Follows(run, b, d, s)
    ensures Follows(run + [r], b, d, Touched(s, r, d))
  {
    var whole := run + [r];
    assert forall i :: 0 <= i < |run| ==> whole[i] == run[i];
    if !NeverHit(run, b, d) {
      var i :| b <= i < |run| && Hits(run[i], d);
      assert Hits(whole[i], d);
      CredsExtend(run, r, b, d, s);
    } else if Hits(r, d) {
      assert whole[|run|] == r;
      assert Source(whole, b, d, |run|) && HasCreds(Touched(s, r, d), r.creds);
    }
  }

  ghost predicate Explains(run: seq<Request>, d: string, m: Sessions) {
    (d in m <==> Birth(run, d).Some?) && (d in m ==> Follows(run, Birth(run, d).value, d, m[d]))
  }

  lemma ExplainsOn(run: seq<Request>, m: Sessions, d: string)
    requires run != [] && Explains(run[..|run| - 1], d, m)
    ensures Explains(run, d, Apply(m, run[|run| - 1]))
  {
    var n := |run| - 1;
    var before := Birth(run[..n], d);
    if before.Some? && !Sweeps(run[n], run[before.value].now) {
      AppliedTo(m, run[n], d);
      FollowsExtends(run[..n], run[n], before.value, d, m[d]);
      assert run[..n] + [run[n]] == run;
    } else if Creates(run[n], d) {
      Born(run, m, d);
    }
  }

  /** Every run: there is a session for a device exactly if one was created and
      not swept since; it is filed under its own device hash, expires 24 hours
      after its creation, and carries all three credentials of the request they
      come from, or none if no request has hit it. */
  lemma {:induction false} SessionsFollowHistory(run: seq<Request>, d: string)
    ensures d in Run(run) <==> Birth(run, d).Some?
    ensures d in Run(run) ==> Follows(run, Birth(run, d).value, d, Run(run)[d])
  {
    if run != [] {
      SessionsFollowHistory(run[..|run| - 1], d);
      ExplainsOn(run, Run(run[..|run| - 1]), d);
    }
  }

  // ------------------------------------------------------------ status polls

  function Start(r: Request): int {
    if r.Check? then r.swept else r.now
  }

  /** The clock never goes backwards, within a request or between two. */
  predicate Monotone(run: seq<Request>) {
    && (forall i :: 0 <= i < |run| ==> Start(run[i]) <= run[i].now)
    && (forall i, j :: 0 <= i < j < |run| ==> run[i].now <= Start(run[j]))
  }

  /** Whole seconds from now to 24 hours after creation, none if that is past. */
  predicate SecondsLeft(created: int, now: int, seconds: int) {
    var left := created + 86_400_000_000_000 - now;
    if left <= 0 then seconds == 0 else seconds * 1_000_000_000 <= left < (seconds + 1) * 1_000_000_000
  }

  /** A status poll after any run says "complete" exactly if the current session
      was hit since its creation; then it returns the credentials of their
      source and the whole seconds that are left of 24 hours since creation. */
  lemma StatusExact(run: seq<Request>, poll: Request)
    requires poll.Check? && Monotone(run + [poll])
    ensures var d, b := poll.device, Birth(run, poll.device);
      var live := b.Some? && !Sweeps(poll, run[b.value].now);
      var answer := StatusOf(Cleaned(Run(run), poll.swept), d, poll.now);
      && (answer.complete <==> live && !NeverHit(run, b.value, d))
      && (answer.complete ==> answer.sessionId == d && 0 <= answer.expiresIn <= 86400)
      && (answer.complete ==> SecondsLeft(run[b.value].now, poll.now, answer.expiresIn))
      && (answer.complete ==> exists i: nat :: Source(run, b.value, d, i) && answer.creds == run[i].creds)
      && (!answer.complete ==> answer.creds == Creds("", "", "") && answer.expiresIn == 0)
      && (!answer.complete ==> answer.sessionId == if live then "" else d)
  {
    SessionsFollowHistory(run, poll.device);
    var d, b := poll.device, Birth(run, poll.device);
    if b.Some? && !Sweeps(poll, run[b.value].now) {
      var s := Run(run)[d];
      var whole := run + [poll];
      assert whole[b.value] == run[b.value] && whole[|run|] == poll;
      assert run[b.value].now <= poll.now;
      if !NeverHit(run, b.value, d) {
        var i: nat :| Source(run, b.value, d, i) && HasCreds(s, run[i].creds);
        assert StatusOf(Cleaned(Run(run), poll.swept), d, poll.now).creds == run[i].creds;
      }
    }
  }

  /** The source is unique, so there is one right answer. */
  lemma SourceUnique(run: seq<Request>, b: nat, d: string, i: nat, j: nat)
    requires Source(run, b, d, i) && Source(run, b, d, j)
    ensures i == j
  {
  }

  // ------------------------------------------------------ temporary callbacks

  function Unauthenticated(m: Sessions): set<string> {
    set d | d in m && m[d].token.None?
  }

  /** What a temporary callback leaves pending: the other temporary sessions. */
  lemma TemporaryCallbackLeaves(m: Sessions, r: Request)
    requires r.Callback? && Temporary(r.device)
    ensures Unauthenticated(Apply(m, r)) == set d | d in Unauthenticated(m) && Temporary(d) && d != r.device
  {
    var own := Updated(m, r.device, r.client, r.creds, r.now);
    forall d
      ensures d in Unauthenticated(Apply(m, r)) <==> d in Unauthenticated(m) && Temporary(d) && d != r.device
    {
      assert d in own <==> d in m || d == r.device;
    }
  }

  /** A callback leaves no session unauthenticated exactly if each pending one
      is its own or, when its device is temporary, not temporary. */
  lemma CallbackCompletesAllIff(m: Sessions, r: Request)
    requires r.Callback?
    ensures Unauthenticated(Apply(m, r)) == {} <==>
      forall d :: d in Unauthenticated(m) ==> d == r.device || (Temporary(r.device) && !Temporary(d))
  {
    if Temporary(r.device) {
      TemporaryCallbackLeaves(m, r);
      if d :| d in Unauthenticated(m) && Temporary(d) && d != r.device {
        assert d in Unauthenticated(Apply(m, r));
      }
    } else {
      var left := Unauthenticated(m) - {r.device};
      assert Unauthenticated(Apply(m, r)) == left;
      if d :| d in Unauthenticated(m) && d != r.device {
        assert d in left;
      }
    }
  }

  /** A device that registered under a temporary name keeps waiting when the
      callback was given another temporary name. */
  lemma TemporaryLeftWaiting(c: Creds, now: int)
    ensures "temp_1" in Unauthenticated(Run([Register("temp_1", "", now), Callback("temp_2", "", c, now)]))
  {
    var run := [Register("temp_1", "", now), Callback("temp_2", "", c, now)];
    assert run[..1] == [Register("temp_1", "", now)];
    assert Run(run[..1]) == map["temp_1" := Pending("temp_1", "", now)] by {
      assert run[..1][..0] == [];
    }
    TemporaryCallbackLeaves(Run(run[..1]), run[1]);
    assert Temporary("temp_1") && Temporary("temp_2");
  }
}
