// The whole of it: what a configuration file promises about every session that is connected, in
// every run of the proxy that it sets up.

module ConfiguredProxy {
  import opened CStrings
  import opened TimeMap
  import opened ConfigData
  import opened ConfigFile
  import opened DoConfig
  import opened Lifecycle
  import opened LifecycleInvariant
  import opened LifecycleTheorems
  import opened Mediation
  import opened Audit
  import Base64
  import Ledger
  import UserAuth
  import Policy

  function Configuration(d: Data, files: Files): Config {
    var lists := ConfiguredLists(d, files);
    Config(IsEnabled(d, "Proxy", "auth"), ConfiguredUsers(d), ConfiguredPolicies(d, lists), lists)
  }

  // The file lets this user in: listed, at a time when its schedule is open, and by the password
  // given first under its name or, when the request has no credentials, as the first whose section
  // lists the address.
  ghost predicate LetIn(d: Data, user: string, request: string, ip: string, clock: Option<LocalTime>) {
    && HasKey(d, "UserAuth", user)
    && clock.Some? && (clock.value.Valid() ==> !Closed(d, user, clock.value))
    && match UserAuth.HeaderToken(request)
       case Some(token) =>
         token != "" && Base64.Decodable(CStr(token))
           && UserAuth.DecodedCredentials(token) == (user, First(Values(d, "UserAuth", user)))
       case None => FirstListing(d, ip, user)
  }

  lemma AuthorisedByFile(d: Data, user: string, request: string, ip: string, clock: Option<LocalTime>)
    requires DistinctNames(d) && IsEnabled(d, "Proxy", "auth")
    ensures UserAuth.Authorised(ConfiguredUsers(d), request, ip, clock, user) ==> LetIn(d, user, request, ip, clock)
    ensures clock.Some? && clock.value.Valid() && LetIn(d, user, request, ip, clock) ==>
      UserAuth.Authorised(ConfiguredUsers(d), request, ip, clock, user)
  {
    hide Values, Week, Closed, PermittedInWeek, FirstListing, UserAuth.HeaderToken, UserAuth.DecodedCredentials,
      Base64.Decodable, CStr, UserAuth.IpUser, UserAuth.HasCredentials, HasKey;
    UserNames(d, user);
    if clock.Some? && clock.value.Valid() {
      WeekOpen(d, user, clock.value);
    }
    match UserAuth.HeaderToken(request)
    case Some(token) =>
      if Base64.Decodable(CStr(token)) {
        ConfiguredCredentials(d, user, UserAuth.DecodedCredentials(token).1);
      }
    case None => ConfiguredIp(d, ip, user);
  }

  // For every loaded file with authentication on and every request that fits: a session is admitted
  // under a name exactly when the file lets that user in.
  lemma FileDecision(text: string, user: string, request: string, ip: string, t: LocalTime, name: string)
    requires Readable(Lines(text)) && IsEnabled(Load(text), "Proxy", "auth") && t.Valid() && UserAuth.Fits(request)
    ensures UserAuth.Decide(true, ConfiguredUsers(Load(text)), user, request, ip, Some(t)) == UserAuth.Admit(name)
      <==> LetIn(Load(text), name, request, ip, Some(t))
  {
    hide Load, Readable, Lines, LetIn, UserAuth.Authorised, UserAuth.Decide, ConfiguredUsers, UserAuth.Fits;
    LoadedExactly(text, "", "");
    ConfiguredNames(Load(text));
    UserAuth.AdmitsExactlyAuthorised(ConfiguredUsers(Load(text)), user, request, ip, Some(t), name);
    AuthorisedByFile(Load(text), name, request, ip, Some(t));
  }

  // For every text of a configuration without a user called `<global>`, and every run: a connected
  // session was decided at an earlier step; its host is in no file of a list that its user's section
  // or the global policy names; and with authentication on, the file lets its user in.
  lemma ConfiguredMediation(text: string, files: Files, s: State, es: seq<Event>, i: nat) returns (k: nat)
    requires Readable(Lines(text)) && !HasKey(Load(text), "UserAuth", "<global>")
    requires var cfg := Configuration(Load(text), files);
      && Init(s) && IsRun(cfg, s, es) && (cfg.authEnabled ==> RequestsFit(es))
      && i < |After(cfg, s, es).sockets| && After(cfg, s, es).sockets[i].Client?
    ensures var d, cfg := Load(text), Configuration(Load(text), files);
      var id := After(cfg, s, es).sockets[i].sid;
      && DecidedAt(cfg, s, es, k, id)
      && var x := SessionOf(After(cfg, s, es), id);
         && GloballySpared(d, files, x.host)
         && (cfg.authEnabled ==>
               Spared(d, files, x.user, x.host) && LetIn(d, x.user, x.request, x.clientIp, es[k].clock))
  {
    var d, cfg := Load(text), Configuration(Load(text), files);
    LoadedExactly(text, "", "");
    k := CompleteMediation(cfg, s, es, i);
    var x := SessionOf(After(cfg, s, es), After(cfg, s, es).sockets[i].sid);
    hide Load, Init, IsRun, After, RequestsFit, DecidedAt, Readable, Lines, LetIn, Spared, GloballySpared,
      Policy.Allowed, UserAuth.Authorised, HasKey;
    SessionByFile(d, files, x, es[k].clock);
  }

  lemma SessionByFile(d: Data, files: Files, x: Session, clock: Option<LocalTime>)
    requires DistinctNames(d) && NamedKeys(d) && !HasKey(d, "UserAuth", Policy.GLOBAL)
    requires var cfg := Configuration(d, files);
      Policy.Allowed(cfg.policies, cfg.lists, x.user, x.host) && AuthorisedSession(cfg, x, clock)
    ensures GloballySpared(d, files, x.host)
    ensures IsEnabled(d, "Proxy", "auth") ==>
      Spared(d, files, x.user, x.host) && LetIn(d, x.user, x.request, x.clientIp, clock)
  {
    hide Values, ConfiguredPolicies, ConfiguredLists, Policy.Allowed, UserAuth.Authorised, LetIn, Spared,
      GloballySpared, UserAuth.FindUser, IsEnabled;
    NoGlobalUser(d);
    ConfiguredHosts(d, files, x.user, x.host);
    if IsEnabled(d, "Proxy", "auth") {
      ConfiguredNames(d);
      AuthorisedByFile(d, x.user, x.request, x.clientIp, clock);
      ListedUser(d, x.user, x.request, x.clientIp, clock);
    }
  }

  // Handling the message that is in hand sends this session to connect.
  ghost predicate Sends(cfg: Config, u: State, t: LocalTime, id: int)
    requires u.main.Handling?
  {
    Step(cfg, u, Handle(Some(t))).pushed == u.pushed + [Connect(id)]
  }

  // No opened file of a global list has the host, every global list opens and, with authentication on,
  // the file lets in a user whose lists do not have it either.
  ghost predicate Grants(d: Data, files: Files, x: Session, t: LocalTime) {
    GloballySpared(d, files, x.host) && (IsEnabled(d, "Proxy", "auth") ==> LetsIn(d, files, x, t))
  }

  ghost predicate LetsIn(d: Data, files: Files, x: Session, t: LocalTime) {
    exists name :: LetIn(d, name, x.request, x.clientIp, Some(t)) && Spared(d, files, name, x.host)
  }

  // And in every such run: a session whose host was detected is sent to connect exactly when the file
  // grants it.
  lemma ConfiguredGrant(text: string, files: Files, s: State, es: seq<Event>, u: State, id: int, t: LocalTime)
    requires Readable(Lines(text)) && !HasKey(Load(text), "UserAuth", "<global>") && t.Valid()
    requires var cfg := Configuration(Load(text), files);
      Init(s) && IsRun(cfg, s, es) && u == After(cfg, s, es) && (cfg.authEnabled ==> RequestsFit(es))
    requires u.main == Handling(DetectResult(id, true))
    ensures Live(u, id)
    ensures Sends(Configuration(Load(text), files), u, t, id) <==> Grants(Load(text), files, SessionOf(u, id), t)
  {
    var cfg := Configuration(Load(text), files);
    RunKeeps(cfg, s, es);
    if cfg.authEnabled {
      SessionsFitRun(cfg, s, es);
    }
    hide Init, IsRun, After, RequestsFit, Inv, Load, Readable, Lines, Sends, Grants, HasKey, Step;
    hide ConfiguredUsers, ConfiguredLists, ConfiguredPolicies, UserAuth.Fits;
    LoadedExactly(text, "", "");
    GrantHere(text, files, u, id, t);
  }

  lemma GrantHere(text: string, files: Files, u: State, id: int, t: LocalTime)
    requires Readable(Lines(text)) && DistinctNames(Load(text)) && !HasKey(Load(text), "UserAuth", "<global>")
    requires t.Valid() && (IsEnabled(Load(text), "Proxy", "auth") ==> SessionsFit(u.sessions))
    requires Inv(u) && u.main == Handling(DetectResult(id, true))
    ensures Live(u, id)
    ensures Sends(Configuration(Load(text), files), u, t, id) <==> Grants(Load(text), files, SessionOf(u, id), t)
  {
    hide Step, Inv, Load, Readable, Lines, LetsIn, GloballySpared, HasKey, IsEnabled, UserAuth.Fits;
    hide ConfiguredUsers, ConfiguredLists, ConfiguredPolicies, UserAuth.Decide, Policy.Allowed;
    GrantExactly(Configuration(Load(text), files), u, Some(t), id, true);
    GrantedByFile(text, files, SessionOf(u, id), t);
    assert u.pushed + [] == u.pushed && |u.pushed + [Connect(id)]| > |u.pushed|;
  }

  lemma GrantedByFile(text: string, files: Files, x: Session, t: LocalTime)
    requires Readable(Lines(text)) && DistinctNames(Load(text)) && !HasKey(Load(text), "UserAuth", "<global>")
    requires t.Valid() && (IsEnabled(Load(text), "Proxy", "auth") ==> UserAuth.Fits(x.request))
    ensures var d, cfg := Load(text), Configuration(Load(text), files);
      var decision := UserAuth.Decide(cfg.authEnabled, cfg.users, x.user, x.request, x.clientIp, Some(t));
      decision.Admit? && Policy.Allowed(cfg.policies, cfg.lists, decision.user, x.host) <==> Grants(d, files, x, t)
  {
    var d, cfg := Load(text), Configuration(Load(text), files);
    var decision := UserAuth.Decide(cfg.authEnabled, cfg.users, x.user, x.request, x.clientIp, Some(t));
    hide Load, Readable, Lines, LetIn, Spared, GloballySpared, HasKey, ConfiguredLists, ConfiguredPolicies,
      Policy.Allowed, UserAuth.Fits, UserAuth.FindUser, UserAuth.HeaderToken, UserAuth.Authenticate, UserAuth.IpUser;
    NoGlobalUser(d);
    ConfiguredHosts(d, files, decision.user, x.host);
    if cfg.authEnabled {
      hide UserAuth.Decide, ConfiguredUsers;
      forall name ensures decision == UserAuth.Admit(name) <==> LetIn(d, name, x.request, x.clientIp, Some(t)) {
        FileDecision(text, x.user, x.request, x.clientIp, t, name);
      }
      if decision.Admit? {
        ListedUser(d, decision.user, x.request, x.clientIp, Some(t));
      }
    }
  }

  // ---- What is audited ----

  // The lines of the file list the user and switch authentication and the user's auditing on.
  ghost predicate AuditedByText(text: string, user: string) {
    var lines := FactsOf(Lines(text), "");
    && Says(ValuesIn(lines, "Proxy", "auth"), "enabled")
    && ValuesIn(lines, "UserAuth", user) != []
    && Says(ValuesIn(lines, user, "audit"), "enabled")
  }

  ghost predicate Says(values: seq<string>, value: string) {
    values != [] && values[0] == value
  }

  // In every run of the proxy that a file sets up, with write-outs at any moments: the rows of a user
  // and host, logged and in memory, are the sums over the sessions that ended, of all sessions of that
  // user and host when the host is known and the file has the user audited, and of none otherwise.
  lemma ConfiguredLedger(text: string, files: Files, s: State, ticks: seq<Tick>, user: string, host: string)
    requires Readable(Lines(text)) && IsTicked(Configuration(Load(text), files), s, ticks)
    ensures var cfg := Configuration(Load(text), files);
      var ended := EndedIn(Records(cfg, s, ticks));
      && Ledger.IsSum(Ledger.Account(LedgerAfter(cfg, s, Ledger.EMPTY, ticks), user, host), ended, user, host)
      && forall i :: 0 <= i < |ended| ==>
           (Ledger.Counts(ended[i], user, host) <==>
              ended[i].user == user && ended[i].host == host != "" && AuditedByText(text, user))
  {
    var cfg := Configuration(Load(text), files);
    var ended := EndedIn(Records(cfg, s, ticks));
    RunConserves(cfg, s, ticks, user, host);
    AuditedAsSaid(text, user);
    hide Ledger.IsSum, Ledger.Account, LedgerAfter, Records, Load, Readable, Lines, AuditedByText, IsTicked,
      ConfiguredUsers, ConfiguredLists, ConfiguredPolicies, IsEnabled, UserAuth.AuditEnabled, Ledger.OnRecord;
    forall i | 0 <= i < |ended|
      ensures Ledger.Counts(ended[i], user, host) <==>
        ended[i].user == user && ended[i].host == host != "" && AuditedByText(text, user)
    {
      RecordsJudged(cfg, s, ticks, i);
      Ledger.AuditedExactly(ended[i]);
    }
  }

  lemma AuditedAsSaid(text: string, user: string)
    requires Readable(Lines(text))
    ensures AuditedByText(text, user) <==>
      IsEnabled(Load(text), "Proxy", "auth") && UserAuth.AuditEnabled(ConfiguredUsers(Load(text)), user)
  {
    hide Load, Readable, Lines, FactsOf, ValuesIn, ConfiguredUsers, UserAuth.AuditEnabled, Values;
    EnabledExactly(Load(text), "Proxy", "auth");
    LoadedExactly(text, "Proxy", "auth");
    if IsEnabled(Load(text), "Proxy", "auth") {
      TextAudit(text, user);
    }
  }

  lemma NoGlobalUser(d: Data)
    requires DistinctNames(d) && !HasKey(d, "UserAuth", Policy.GLOBAL)
    ensures UserAuth.FindUser(ConfiguredUsers(d), Policy.GLOBAL) == |ConfiguredUsers(d)|
  {
    hide Values, Week, HasKey;
    if IsEnabled(d, "Proxy", "auth") {
      UserNames(d, Policy.GLOBAL);
    }
  }

  lemma ListedUser(d: Data, user: string, request: string, ip: string, clock: Option<LocalTime>)
    requires DistinctNames(d) && IsEnabled(d, "Proxy", "auth") && LetIn(d, user, request, ip, clock)
    ensures UserAuth.FindUser(ConfiguredUsers(d), user) < |ConfiguredUsers(d)|
  {
    hide Values, Week, HasKey;
    UserNames(d, user);
  }
}
