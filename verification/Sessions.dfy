/**
 * Hypervisor logins. A handler runs as one step; the clock reading and the new session identifier are
 * parameters. Cookies are authenticated by a library: a request carries an identifier or nothing usable.
 */
module Sessions {
  import opened Base

  type SID = nat

  datatype Session = Session(user: string, expiry: int)

  datatype Response = OK | LoggedIn(sid: SID) | BadRequest | Unauthorized | Forbidden

  predicate UsernameFormatOkay(name: string) {
    4 <= |name| <= 21 && forall c :: c in name ==> 'a' <= c <= 'z' || '0' <= c <= '9' || c == '_' || c == '-'
  }

  predicate PasswordFormatOkay(pass: string) {
    6 <= |pass| <= 64
  }

  /** The stored password stands for its salted hash. `only` is the one name the store admits. */
  datatype Store = Store(only: string, users: map<string, string>, sessions: map<SID, Session>) {

    predicate Stored(cookie: Option<SID>) {
      cookie.Some? && cookie.value in sessions && sessions[cookie.value].user in users
    }

    function Find(cookie: Option<SID>, now: int): Option<Session> {
      if Stored(cookie) && now <= sessions[cookie.value].expiry then Some(sessions[cookie.value]) else None
    }

    /** Looking a session up after its expiry deletes it. */
    function Swept(cookie: Option<SID>, now: int): Store {
      if Stored(cookie) && now > sessions[cookie.value].expiry
      then this.(sessions := sessions - {cookie.value}) else this
    }

    function WithoutUser(user: string): Store {
      this.(sessions := map sid | sid in sessions && sessions[sid].user != user :: sessions[sid])
    }
  }

  datatype Request =
    | Login(cookie: Option<SID>, body: Option<(string, string)>, newSID: SID)
    | Logout(cookie: Option<SID>)
    | Authorize(cookie: Option<SID>)
    | ChangePassword(cookie: Option<SID>, change: Option<(string, string)>)
    | CreateAccount(account: Option<(string, string)>)

  function Respond(s: Store, r: Request, now: int): Response {
    match r
    case Login(cookie, body, newSID) =>
      if s.Find(cookie, now).Some? then Forbidden
      else if body.None? then BadRequest
      else if body.value.0 != s.only || body.value.0 !in s.users || s.users[body.value.0] != body.value.1
      then Unauthorized
      else LoggedIn(newSID)
    case Logout(cookie) => if cookie.None? then BadRequest else OK
    case Authorize(cookie) => if s.Find(cookie, now).None? then Unauthorized else OK
    case ChangePassword(cookie, change) =>
      var session := s.Find(cookie, now);
      if session.None? then Unauthorized
      else if change.None? then BadRequest
      else if session.value.user !in s.users || s.users[session.value.user] != change.value.0 then Unauthorized
      else if !PasswordFormatOkay(change.value.1) then BadRequest
      else if session.value.user != s.only then Forbidden
      else OK
    case CreateAccount(account) =>
      if account.None? || !UsernameFormatOkay(account.value.0) || !PasswordFormatOkay(account.value.1) then BadRequest
      else if account.value.0 != s.only || account.value.0 in s.users then Forbidden
      else OK
  }

  function After(s: Store, r: Request, now: int, lifetime: nat): Store {
    match r
    case Login(cookie, body, newSID) =>
      var t := s.Swept(cookie, now);
      if Respond(s, r, now).LoggedIn? && body.Some?
      then t.(sessions := t.sessions[newSID := Session(body.value.0, now + lifetime)]) else t
    case Logout(cookie) => if cookie.None? then s else s.(sessions := s.sessions - {cookie.value})
    case Authorize(cookie) => s.Swept(cookie, now)
    case ChangePassword(cookie, change) =>
      var session := s.Find(cookie, now);
      if Respond(s, r, now) == OK && session.Some? && change.Some?
      then s.(users := s.users[session.value.user := change.value.1]).WithoutUser(session.value.user)
      else s.Swept(cookie, now)
    case CreateAccount(account) =>
      if Respond(s, r, now) == OK && account.Some? then s.(users := s.users[account.value.0 := account.value.1]) else s
  }

  class UserManager {
    const only: string
    const lifetime: nat
    var users: map<string, string>
    var sessions: map<SID, Session>

    ghost function State(): Store
      reads this
    {
      Store(only, users, sessions)
    }

    constructor (only: string, lifetime: nat)
      ensures this.lifetime == lifetime && State() == Store(only, map[], map[])
    {
      this.only, this.lifetime := only, lifetime;
      users, sessions := map[], map[];
    }

    method LookUp(cookie: Option<SID>, now: int) returns (res: Option<Session>)
      modifies this`sessions
      ensures res == old(State()).Find(cookie, now) && State() == old(State()).Swept(cookie, now)
    {
      if cookie.None? || cookie.value !in sessions {
        return None;
      }
      var session := sessions[cookie.value];
      if session.user !in users {
        return None;
      }
      if now > session.expiry {
        sessions := sessions - {cookie.value};
        return None;
      }
      return Some(session);
    }

    method DelAllSessionsOfUser(user: string)
      modifies this`sessions
      ensures State() == old(State()).WithoutUser(user)
    {
      var rest := sessions.Keys;
      while rest != {}
        invariant rest <= old(sessions).Keys
        invariant forall sid :: sid in sessions
                    <==> sid in old(sessions) && (sid in rest || old(sessions)[sid].user != user)
        invariant forall sid :: sid in sessions ==> sessions[sid] == old(sessions)[sid]
        decreases |rest|
      {
        var sid :| sid in rest;
        if sessions[sid].user == user {
          sessions := sessions - {sid};
        }
        rest := rest - {sid};
      }
    }

    method Login(cookie: Option<SID>, body: Option<(string, string)>, now: int, newSID: SID) returns (res: Response)
      modifies this`sessions
      ensures res == Respond(old(State()), Request.Login(cookie, body, newSID), now)
      ensures State() == After(old(State()), Request.Login(cookie, body, newSID), now, lifetime)
    {
      var session := LookUp(cookie, now);
      if session.Some? {
        return Forbidden;
      }
      if body.None? {
        return BadRequest;
      }
      var (name, password) := body.value;
      if name != only || name !in users || users[name] != password {
        return Unauthorized;
      }
      sessions := sessions[newSID := Session(name, now + lifetime)];
      return LoggedIn(newSID);
    }

    method Logout(cookie: Option<SID>, now: int) returns (res: Response)
      modifies this`sessions
      ensures res == Respond(old(State()), Request.Logout(cookie), now)
      ensures State() == After(old(State()), Request.Logout(cookie), now, lifetime)
    {
      if cookie.None? {
        return BadRequest;
      }
      sessions := sessions - {cookie.value};
      return OK;
    }

    method Authorize(cookie: Option<SID>, now: int) returns (res: Response)
      modifies this`sessions
      ensures res == Respond(old(State()), Request.Authorize(cookie), now)
      ensures State() == After(old(State()), Request.Authorize(cookie), now, lifetime)
    {
      var session := LookUp(cookie, now);
      return if session.None? then Unauthorized else OK;
    }

    method CreateAccount(account: Option<(string, string)>, now: int) returns (res: Response)
      modifies this`users
      ensures res == Respond(old(State()), Request.CreateAccount(account), now)
      ensures State() == After(old(State()), Request.CreateAccount(account), now, lifetime)
    {
      if account.None? {
        return BadRequest;
      }
      var (name, password) := account.value;
      if !UsernameFormatOkay(name) || !PasswordFormatOkay(password) {
        return BadRequest;
      }
      if name != only || name in users {
        return Forbidden;
      }
      users := users[name := password];
      return OK;
    }

    method ChangePassword(cookie: Option<SID>, change: Option<(string, string)>, now: int) returns (res: Response)
      modifies this
      ensures res == Respond(old(State()), Request.ChangePassword(cookie, change), now)
      ensures State() == After(old(State()), Request.ChangePassword(cookie, change), now, lifetime)
    {
      var session := LookUp(cookie, now);
      if session.None? {
        return Unauthorized;
      }
      if change.None? {
        return BadRequest;
      }
      var (oldPassword, newPassword) := change.value;
      if users[session.value.user] != oldPassword {
        return Unauthorized;
      }
      if !PasswordFormatOkay(newPassword) {
        return BadRequest;
      }
      if session.value.user != only {
        return Forbidden;
      }
      users := users[session.value.user := newPassword];
      DelAllSessionsOfUser(session.value.user);
      return OK;
    }
  }

  // Runs and what they add up to.

  datatype Event = Event(at: int, request: Request)

  /** What a request brought about: a session opened or ended, an account, or a new password that ends the sessions. */
  datatype Fact =
    | Opened(sid: SID, user: string, expiry: int)
    | Ended(sid: SID)
    | Created(user: string, password: string)
    | Changed(user: string, password: string)
    | Nothing

  // The history, read off the requests alone.

  /** The session as the history tells it: opened, and not ended since, by itself or with its user's. */
  function OpenIn(facts: seq<Fact>, sid: SID): Option<Session> {
    if facts == [] then None
    else
      var before := OpenIn(facts[..|facts| - 1], sid);
      match facts[|facts| - 1]
      case Opened(x, user, expiry) => if x == sid then Some(Session(user, expiry)) else before
      case Ended(x) => if x == sid then None else before
      case Changed(user, _) => if before.Some? && before.value.user == user then None else before
      case _ => before
  }

  /** The password a user's latest account creation or password change set. */
  function PasswordIn(facts: seq<Fact>, user: string): Option<string> {
    if facts == [] then None
    else
      var last := facts[|facts| - 1];
      if (last.Created? || last.Changed?) && last.user == user then Some(last.password)
      else PasswordIn(facts[..|facts| - 1], user)
  }

  function AcceptedIn(facts: seq<Fact>, cookie: Option<SID>, now: int): Option<Session> {
    if cookie.None? then None
    else
      var open := OpenIn(facts, cookie.value);
      if open.Some? && now <= open.value.expiry then open else None
  }

  /** What a request brings about after a history: a login needs the password, a change the old one. */
  function FactOf(facts: seq<Fact>, only: string, e: Event, lifetime: nat): Fact {
    match e.request
    case Login(cookie, body, newSID) =>
      if AcceptedIn(facts, cookie, e.at).None? && body.Some? && PasswordIn(facts, body.value.0) == Some(body.value.1)
      then Opened(newSID, body.value.0, e.at + lifetime) else Nothing
    case Logout(cookie) => if cookie.Some? then Ended(cookie.value) else Nothing
    case Authorize(_) => Nothing
    case ChangePassword(cookie, change) =>
      var session := AcceptedIn(facts, cookie, e.at);
      if session.Some? && change.Some? && PasswordIn(facts, session.value.user) == Some(change.value.0)
         && PasswordFormatOkay(change.value.1)
      then Changed(session.value.user, change.value.1) else Nothing
    case CreateAccount(account) =>
      if account.Some? && account.value.0 == only && PasswordIn(facts, only).None?
         && UsernameFormatOkay(only) && PasswordFormatOkay(account.value.1)
      then Created(only, account.value.1) else Nothing
  }

  function Facts(only: string, run: seq<Event>, lifetime: nat): seq<Fact> {
    if run == [] then []
    else
      var before := Facts(only, run[..|run| - 1], lifetime);
      before + [FactOf(before, only, run[|run| - 1], lifetime)]
  }

  /** The store after a run that began with an empty one. */
  function Final(only: string, run: seq<Event>, lifetime: nat): Store {
    if run == [] then Store(only, map[], map[])
    else
      After(Final(only, run[..|run| - 1], lifetime), run[|run| - 1].request, run[|run| - 1].at, lifetime)
  }

  /** The clock does not go back. */
  ghost predicate Timely(run: seq<Event>, now: int) {
    (forall i :: 0 < i < |run| ==> run[i - 1].at <= run[i].at) && (run != [] ==> run[|run| - 1].at <= now)
  }

  /** Session identifiers are given once. */
  ghost predicate NewSIDs(run: seq<Event>) {
    forall i, j :: 0 <= i < j < |run| && run[i].request.Login? && run[j].request.Login? ==>
      run[i].request.newSID != run[j].request.newSID
  }

  // The store against the history.

  ghost predicate UsersAsTold(s: Store, facts: seq<Fact>) {
    && (forall user :: user in s.users ==> user == s.only && PasswordIn(facts, user) == Some(s.users[user]))
    && (forall user :: user !in s.users ==> PasswordIn(facts, user).None?)
  }

  /** The sessions kept are the ones open in the history, but for those deleted after their expiry. */
  ghost predicate SessionsAsTold(s: Store, facts: seq<Fact>, now: int) {
    && (forall sid :: sid in s.sessions ==>
          OpenIn(facts, sid) == Some(s.sessions[sid]) && s.sessions[sid].user in s.users)
    && (forall sid :: sid !in s.sessions && OpenIn(facts, sid).Some? ==> OpenIn(facts, sid).value.expiry < now)
  }

  ghost predicate Refines(s: Store, facts: seq<Fact>, now: int) {
    UsersAsTold(s, facts) && SessionsAsTold(s, facts, now)
  }

  lemma OpenInAppend(facts: seq<Fact>, f: Fact, sid: SID)
    ensures OpenIn(facts + [f], sid) ==
            match f
            case Opened(x, user, expiry) => if x == sid then Some(Session(user, expiry)) else OpenIn(facts, sid)
            case Ended(x) => if x == sid then None else OpenIn(facts, sid)
            case Changed(user, _) =>
              if OpenIn(facts, sid).Some? && OpenIn(facts, sid).value.user == user then None else OpenIn(facts, sid)
            case _ => OpenIn(facts, sid)
  {
    assert (facts + [f])[..|facts|] == facts;
  }

  lemma PasswordInAppend(facts: seq<Fact>, f: Fact, user: string)
    ensures PasswordIn(facts + [f], user)
         == if (f.Created? || f.Changed?) && f.user == user then Some(f.password) else PasswordIn(facts, user)
  {
    assert (facts + [f])[..|facts|] == facts;
  }

  lemma FindIsAccepted(s: Store, facts: seq<Fact>, from: int, cookie: Option<SID>, now: int)
    requires Refines(s, facts, from) && from <= now
    ensures s.Find(cookie, now) == AcceptedIn(facts, cookie, now)
  {
  }

  lemma UsersStep(s: Store, facts: seq<Fact>, from: int, e: Event, lifetime: nat)
    requires Refines(s, facts, from) && from <= e.at
    ensures UsersAsTold(After(s, e.request, e.at, lifetime), facts + [FactOf(facts, s.only, e, lifetime)])
  {
    var f := FactOf(facts, s.only, e, lifetime);
    match e.request {
      case Login(cookie, _, _) => FindIsAccepted(s, facts, from, cookie, e.at);
      case ChangePassword(cookie, _) => FindIsAccepted(s, facts, from, cookie, e.at);
      case _ =>
    }
    hide PasswordIn, OpenIn, SessionsAsTold;
    forall user { PasswordInAppend(facts, f, user); }
  }

  lemma SweptAsTold(s: Store, facts: seq<Fact>, from: int, cookie: Option<SID>, now: int)
    requires SessionsAsTold(s, facts, from) && from <= now
    ensures SessionsAsTold(s.Swept(cookie, now), facts, now)
  {
  }

  lemma OpenedAsTold(s: Store, facts: seq<Fact>, now: int, sid: SID, user: string, expiry: int)
    requires SessionsAsTold(s, facts, now) && user in s.users
    ensures var t := s.(sessions := s.sessions[sid := Session(user, expiry)]);
            SessionsAsTold(t, facts + [Opened(sid, user, expiry)], now)
  {
    forall x { OpenInAppend(facts, Opened(sid, user, expiry), x); }
  }

  lemma EndedAsTold(s: Store, facts: seq<Fact>, now: int, sid: SID)
    requires SessionsAsTold(s, facts, now)
    ensures SessionsAsTold(s.(sessions := s.sessions - {sid}), facts + [Ended(sid)], now)
  {
    forall x { OpenInAppend(facts, Ended(sid), x); }
  }

  lemma ChangedAsTold(s: Store, facts: seq<Fact>, now: int, user: string, password: string)
    requires SessionsAsTold(s, facts, now) && user in s.users
    ensures var t := s.(users := s.users[user := password]).WithoutUser(user);
            SessionsAsTold(t, facts + [Changed(user, password)], now)
  {
    forall x { OpenInAppend(facts, Changed(user, password), x); }
  }

  lemma UnchangedAsTold(s: Store, facts: seq<Fact>, now: int, f: Fact, users: map<string, string>)
    requires SessionsAsTold(s, facts, now) && (f.Created? || f.Nothing?) && s.users.Keys <= users.Keys
    ensures SessionsAsTold(s.(users := users), facts + [f], now)
  {
    forall x { OpenInAppend(facts, f, x); }
  }

  lemma SessionsStep(s: Store, facts: seq<Fact>, from: int, e: Event, lifetime: nat)
    requires Refines(s, facts, from) && from <= e.at
    ensures SessionsAsTold(After(s, e.request, e.at, lifetime), facts + [FactOf(facts, s.only, e, lifetime)], e.at)
  {
    hide PasswordIn, OpenIn, SessionsAsTold;
    var f, now := FactOf(facts, s.only, e, lifetime), e.at;
    match e.request {
      case Login(cookie, _, _) =>
        FindIsAccepted(s, facts, from, cookie, now);
        SweptAsTold(s, facts, from, cookie, now);
        if f.Opened? {
          OpenedAsTold(s.Swept(cookie, now), facts, now, f.sid, f.user, f.expiry);
        } else {
          UnchangedAsTold(s.Swept(cookie, now), facts, now, f, s.users);
        }
      case Logout(cookie) =>
        SweptAsTold(s, facts, from, None, now);
        if cookie.Some? {
          EndedAsTold(s, facts, now, cookie.value);
        } else {
          UnchangedAsTold(s, facts, now, f, s.users);
        }
      case Authorize(cookie) =>
        SweptAsTold(s, facts, from, cookie, now);
        UnchangedAsTold(s.Swept(cookie, now), facts, now, f, s.users);
      case ChangePassword(cookie, _) =>
        FindIsAccepted(s, facts, from, cookie, now);
        SweptAsTold(s, facts, from, cookie, now);
        if f.Changed? {
          ChangedAsTold(s, facts, now, f.user, f.password);
        } else {
          UnchangedAsTold(s.Swept(cookie, now), facts, now, f, s.users);
        }
      case CreateAccount(account) =>
        SweptAsTold(s, facts, from, None, now);
        UnchangedAsTold(s, facts, now, f, After(s, e.request, now, lifetime).users);
    }
  }

  /** One request keeps users and sessions what the history tells. */
  lemma StepRefines(s: Store, facts: seq<Fact>, from: int, e: Event, lifetime: nat)
    requires Refines(s, facts, from) && from <= e.at
    ensures Refines(After(s, e.request, e.at, lifetime), facts + [FactOf(facts, s.only, e, lifetime)], e.at)
    ensures After(s, e.request, e.at, lifetime).only == s.only
  {
    UsersStep(s, facts, from, e, lifetime);
    SessionsStep(s, facts, from, e, lifetime);
  }

  lemma {:induction false} RunRefines(only: string, run: seq<Event>, lifetime: nat, now: int)
    requires Timely(run, now)
    ensures Refines(Final(only, run, lifetime), Facts(only, run, lifetime), now)
    ensures Final(only, run, lifetime).only == only
  {
    if run != [] {
      hide UsersAsTold, SessionsAsTold, OpenIn, PasswordIn, FactOf, After;
      var front, e := run[..|run| - 1], run[|run| - 1];
      RunRefines(only, front, lifetime, e.at);
      StepRefines(Final(only, front, lifetime), Facts(only, front, lifetime), e.at, e, lifetime);
    }
  }

  /** The users' passwords after a run are those its latest creations and changes set. */
  lemma PasswordsByHistory(only: string, run: seq<Event>, lifetime: nat, now: int, user: string)
    requires Timely(run, now)
    ensures var users := Final(only, run, lifetime).users;
            PasswordIn(Facts(only, run, lifetime), user) == if user in users then Some(users[user]) else None
  {
    RunRefines(only, run, lifetime, now);
  }

  /** The store accepts at `now` exactly the sessions open in the history that are not past their expiry. */
  lemma AcceptedIff(only: string, run: seq<Event>, lifetime: nat, now: int, cookie: Option<SID>)
    requires Timely(run, now)
    ensures Final(only, run, lifetime).Find(cookie, now) == AcceptedIn(Facts(only, run, lifetime), cookie, now)
  {
    RunRefines(only, run, lifetime, now);
    FindIsAccepted(Final(only, run, lifetime), Facts(only, run, lifetime), now, cookie, now);
  }

  /**
   * A login after any run is answered with a session exactly when its cookie names no accepted session and its password
   * is the one that user's latest successful account creation or password change set.
   */
  lemma LoginIff(only: string, run: seq<Event>, lifetime: nat, now: int, cookie: Option<SID>,
                 body: Option<(string, string)>, newSID: SID)
    requires Timely(run, now)
    ensures var facts := Facts(only, run, lifetime);
            var res := Respond(Final(only, run, lifetime), Login(cookie, body, newSID), now);
      && (res == LoggedIn(newSID)
          <==> (AcceptedIn(facts, cookie, now).None? && body.Some?
                && PasswordIn(facts, body.value.0) == Some(body.value.1)))
      && (res == Forbidden <==> AcceptedIn(facts, cookie, now).Some?)
      && (res == BadRequest <==> AcceptedIn(facts, cookie, now).None? && body.None?)
      && (res.LoggedIn? || res in {Forbidden, BadRequest, Unauthorized})
  {
    RunRefines(only, run, lifetime, now);
    AcceptedIff(only, run, lifetime, now, cookie);
    hide PasswordIn, OpenIn, Facts, Final;
  }

  /**
   * A password is changed exactly by a request with an accepted session that gives its user's latest password and a new
   * one of the admitted length. The refusal for users other than the admitted one never happens.
   */
  lemma ChangePasswordIff(only: string, run: seq<Event>, lifetime: nat, now: int, cookie: Option<SID>,
                          change: Option<(string, string)>)
    requires Timely(run, now)
    ensures var facts := Facts(only, run, lifetime);
            var session := AcceptedIn(facts, cookie, now);
            var res := Respond(Final(only, run, lifetime), ChangePassword(cookie, change), now);
      && (res == OK
          <==> (session.Some? && change.Some? && PasswordIn(facts, session.value.user) == Some(change.value.0)
                && 6 <= |change.value.1| <= 64))
      && (res == BadRequest
          <==> (session.Some?
                && (change.None? || (PasswordIn(facts, session.value.user) == Some(change.value.0)
                                     && !(6 <= |change.value.1| <= 64)))))
      && res in {OK, BadRequest, Unauthorized}
  {
    RunRefines(only, run, lifetime, now);
    AcceptedIff(only, run, lifetime, now, cookie);
    hide PasswordIn, OpenIn, Facts, Final;
  }

  /** An account is made exactly once, for the admitted name, with a name and a password of the admitted form. */
  lemma CreateAccountIff(only: string, run: seq<Event>, lifetime: nat, now: int, account: Option<(string, string)>)
    requires Timely(run, now)
    ensures var facts := Facts(only, run, lifetime);
            var res := Respond(Final(only, run, lifetime), CreateAccount(account), now);
            var wellFormed := account.Some? && 4 <= |account.value.0| <= 21 && 6 <= |account.value.1| <= 64
              && forall c :: c in account.value.0 ==> 'a' <= c <= 'z' || '0' <= c <= '9' || c == '_' || c == '-';
      && (res == OK <==> wellFormed && account.value.0 == only && PasswordIn(facts, only).None?)
      && (res == BadRequest <==> !wellFormed)
      && res in {OK, BadRequest, Forbidden}
  {
    RunRefines(only, run, lifetime, now);
    hide PasswordIn, OpenIn, Facts, Final;
  }

  /** Authorized exactly with an accepted session; a logout is refused only without a cookie. */
  lemma AuthorizeIff(only: string, run: seq<Event>, lifetime: nat, now: int, cookie: Option<SID>)
    requires Timely(run, now)
    ensures var accepted := AcceptedIn(Facts(only, run, lifetime), cookie, now).Some?;
      && Respond(Final(only, run, lifetime), Authorize(cookie), now) == (if accepted then OK else Unauthorized)
      && Respond(Final(only, run, lifetime), Logout(cookie), now) == (if cookie.Some? then OK else BadRequest)
  {
    AcceptedIff(only, run, lifetime, now, cookie);
  }

  /** Whatever else a request does, an expired session it presents is deleted, and no other session for its expiry. */
  lemma ExpiredIsDeleted(s: Store, r: Request, now: int, lifetime: nat, sid: SID)
    requires r.Login? || r.Authorize? || r.ChangePassword?
    requires s.Stored(r.cookie) && now > s.sessions[r.cookie.value].expiry
    ensures sid in s.sessions && !(r.Login? && sid == r.newSID) ==>
              (sid in After(s, r, now, lifetime).sessions <==> sid != r.cookie.value)
  {
  }

  // The history by position.

  predicate SetsPassword(f: Fact, user: string) {
    (f.Created? || f.Changed?) && f.user == user
  }

  /** What PasswordIn means: the fact that set the password, and none that set another after it. */
  lemma {:induction false} PasswordInByPosition(facts: seq<Fact>, user: string, password: string)
    ensures PasswordIn(facts, user) == Some(password)
       <==> exists i :: 0 <= i < |facts| && SetsPassword(facts[i], user) && facts[i].password == password
                        && forall j :: i < j < |facts| ==> !SetsPassword(facts[j], user)
  {
    if facts != [] {
      var front, last := facts[..|facts| - 1], facts[|facts| - 1];
      PasswordInByPosition(front, user, password);
      if SetsPassword(last, user) {
        if PasswordIn(facts, user) == Some(password) {
          assert SetsPassword(facts[|facts| - 1], user);
        }
      } else {
        if i :| 0 <= i < |front| && SetsPassword(front[i], user) && front[i].password == password
                && forall j :: i < j < |front| ==> !SetsPassword(front[j], user) {
          assert SetsPassword(facts[i], user);
          assert forall j :: i < j < |facts| ==> !SetsPassword(facts[j], user);
        }
        if i :| 0 <= i < |facts| && SetsPassword(facts[i], user) && facts[i].password == password
                && forall j :: i < j < |facts| ==> !SetsPassword(facts[j], user) {
          assert i < |front| && SetsPassword(front[i], user);
          assert forall j :: i < j < |front| ==> front[j] == facts[j];
        }
      }
    }
  }

  predicate Ends(f: Fact, sid: SID, user: string) {
    f == Ended(sid) || (f.Changed? && f.user == user)
  }

  /** What OpenIn means: the fact that opened the session, and nothing that ended it after. */
  lemma {:induction false} OpenInByPosition(facts: seq<Fact>, sid: SID, user: string, expiry: int)
    requires forall i, j :: 0 <= i < j < |facts| && facts[i].Opened? && facts[j].Opened? ==>
               facts[i].sid != facts[j].sid
    ensures OpenIn(facts, sid) == Some(Session(user, expiry))
       <==> exists i :: 0 <= i < |facts| && facts[i] == Opened(sid, user, expiry)
                        && forall j :: i < j < |facts| ==> !Ends(facts[j], sid, user)
  {
    if facts != [] {
      var front, last := facts[..|facts| - 1], facts[|facts| - 1];
      OpenInByPosition(front, sid, user, expiry);
      if OpenIn(facts, sid) == Some(Session(user, expiry)) {
        if last == Opened(sid, user, expiry) {
          assert facts[|facts| - 1] == Opened(sid, user, expiry);
        } else {
          var i :| 0 <= i < |front| && front[i] == Opened(sid, user, expiry)
                   && forall j :: i < j < |front| ==> !Ends(front[j], sid, user);
          assert facts[i] == Opened(sid, user, expiry);
          assert forall j :: i < j < |facts| ==> !Ends(facts[j], sid, user);
        }
      }
      if i :| 0 <= i < |facts| && facts[i] == Opened(sid, user, expiry)
              && forall j :: i < j < |facts| ==> !Ends(facts[j], sid, user) {
        if i < |front| {
          assert front[i] == Opened(sid, user, expiry);
          assert forall j :: i < j < |front| ==> front[j] == facts[j];
          assert OpenIn(front, sid) == Some(Session(user, expiry));
          assert facts[i].sid == sid && (last.Opened? ==> last.sid != sid);
        }
      }
    }
  }

  lemma {:induction false} FactsByPosition(only: string, run: seq<Event>, lifetime: nat, i: nat)
    requires i < |run|
    ensures |Facts(only, run, lifetime)| == |run|
    ensures Facts(only, run, lifetime)[i] == FactOf(Facts(only, run[..i], lifetime), only, run[i], lifetime)
  {
    var front := run[..|run| - 1];
    if i < |front| {
      FactsByPosition(only, front, lifetime, i);
      assert front[..i] == run[..i];
    } else if front != [] {
      FactsByPosition(only, front, lifetime, 0);
    }
  }

  lemma OpenedBy(only: string, run: seq<Event>, lifetime: nat, i: nat)
    requires i < |run|
    ensures |Facts(only, run, lifetime)| == |run|
    ensures var f := Facts(only, run, lifetime)[i];
            f.Opened? ==> run[i].request.Login? && f.sid == run[i].request.newSID
  {
    FactsByPosition(only, run, lifetime, i);
  }

  lemma FactsLength(only: string, run: seq<Event>, lifetime: nat)
    ensures |Facts(only, run, lifetime)| == |run|
  {
    if run != [] {
      FactsByPosition(only, run, lifetime, 0);
    }
  }

  /** No two logins open a session of the same identifier. */
  lemma OpenedOnce(only: string, run: seq<Event>, lifetime: nat)
    requires NewSIDs(run)
    ensures var facts := Facts(only, run, lifetime);
            forall i, j :: 0 <= i < j < |facts| && facts[i].Opened? && facts[j].Opened? ==> facts[i].sid != facts[j].sid
  {
    hide Facts, Final;
    var facts := Facts(only, run, lifetime);
    FactsLength(only, run, lifetime);
    forall i, j | 0 <= i < j < |facts| && facts[i].Opened? && facts[j].Opened?
      ensures facts[i].sid != facts[j].sid
    {
      OpenedBy(only, run, lifetime, i);
      OpenedBy(only, run, lifetime, j);
    }
  }

  /**
   * The session rule: an identifier is accepted at `now` exactly when some login of the run opened it, `now` is not
   * past the expiry that login set, and no later request logged it out or changed its user's password. The moment an
   * expired session happens to be deleted makes no difference.
   */
  lemma AcceptedByHistory(only: string, run: seq<Event>, lifetime: nat, now: int, sid: SID, user: string, expiry: int)
    requires Timely(run, now) && NewSIDs(run)
    ensures var facts := Facts(only, run, lifetime);
            |facts| == |run| &&
            (Final(only, run, lifetime).Find(Some(sid), now) == Some(Session(user, expiry))
             <==> now <= expiry
                  && exists i :: 0 <= i < |run| && facts[i] == Opened(sid, user, expiry)
                                 && forall j :: i < j < |run| ==> !Ends(facts[j], sid, user))
  {
    var facts := Facts(only, run, lifetime);
    FactsLength(only, run, lifetime);
    OpenedOnce(only, run, lifetime);
    AcceptedIff(only, run, lifetime, now, Some(sid));
    hide OpenIn, FactOf, NewSIDs, Facts, Final, Ends;
    OpenInByPosition(facts, sid, user, expiry);
  }

  /**
   * The login rule, by position in the run: answered with a session exactly when the cookie names no accepted session
   * and some request of the run set this password for this user, by a creation or a change, and none set one after it.
   */
  lemma LoginByHistory(only: string, run: seq<Event>, lifetime: nat, now: int, cookie: Option<SID>, user: string,
                       password: string, newSID: SID)
    requires Timely(run, now)
    ensures var facts := Facts(only, run, lifetime);
            |facts| == |run| &&
            (Respond(Final(only, run, lifetime), Login(cookie, Some((user, password)), newSID), now) == LoggedIn(newSID)
             <==> AcceptedIn(facts, cookie, now).None?
                  && exists i :: 0 <= i < |run| && SetsPassword(facts[i], user) && facts[i].password == password
                                 && forall j :: i < j < |run| ==> !SetsPassword(facts[j], user))
  {
    FactsLength(only, run, lifetime);
    LoginIff(only, run, lifetime, now, cookie, Some((user, password)), newSID);
    PasswordInByPosition(Facts(only, run, lifetime), user, password);
  }
}
