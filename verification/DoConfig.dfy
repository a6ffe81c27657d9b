// Start-up: the loaded configuration becomes the user table, the policies and the domain lists.

module DoConfig {
  import opened CStrings
  import opened ConfigData
  import opened ConfigFile
  import opened ConfigRoundTrip
  import opened TimeMap
  import opened UserAuth
  import opened Policy

  // The hosts listed in the file at a path; None when it cannot be opened.
  type Files = string -> Option<set<string>>

  // ---- What a configuration means ----

  function First(values: seq<string>): string {
    if values == [] then "" else values[0]
  }

  predicate IsEnabled(d: Data, section: string, key: string) {
    First(Values(d, section, key)) == "enabled"
  }

  function Attributes(d: Data, section: string): seq<Attribute> {
    var i := FindSection(d, section);
    if i < |d| then d[i].attributes else []
  }

  predicate HasKey(d: Data, section: string, key: string) {
    exists i :: 0 <= i < |Attributes(d, section)| && Attributes(d, section)[i].name == key
  }

  // One list for every attribute whose file opens, in order.
  function Lists(attrs: seq<Attribute>, files: Files): seq<Blacklist> {
    if attrs == [] then []
    else
      var a := attrs[|attrs| - 1];
      var hosts := files(First(a.values));
      Lists(attrs[..|attrs| - 1], files) + if hosts.Some? then [Blacklist(a.name, hosts.value)] else []
  }

  // The names of loaded lists, in order.
  function Kept(names: seq<string>, lists: seq<Blacklist>): (r: seq<string>)
    ensures forall n :: n in r <==> n in names && Loaded(lists, n)
  {
    if names == [] then []
    else
      var n := names[|names| - 1];
      assert names == names[..|names| - 1] + [n];
      Kept(names[..|names| - 1], lists) + if Loaded(lists, n) then [n] else []
  }

  function DaySchedule(d: Data, name: string, day: string): DayMap {
    var s := First(Values(d, name, day));
    if |s| == INTERVALS then FromString(s) else AllDay()
  }

  function ScheduledDay(d: Data, name: string, i: nat, n: nat): DayMap
    requires i < DAYS
  {
    if i < n then DaySchedule(d, name, DAY_NAMES[i]) else AllDay()
  }

  // The first n days of the week as configured, the others open.
  function FirstDays(d: Data, name: string, n: nat): WeekMap {
    seq(DAYS, i requires 0 <= i < DAYS => ScheduledDay(d, name, i, n))
  }

  function Week(d: Data, name: string): WeekMap {
    if IsEnabled(d, name, "time_based_policy") then FirstDays(d, name, DAYS) else AllWeek()
  }

  function ConfiguredUser(d: Data, a: Attribute): User {
    User(a.name, First(a.values), Values(d, a.name, "ip_list"), Week(d, a.name), IsEnabled(d, a.name, "audit"))
  }

  function ConfiguredUsers(d: Data): seq<User> {
    if IsEnabled(d, "Proxy", "auth") then
      var attrs := Attributes(d, "UserAuth");
      seq(|attrs|, i requires 0 <= i < |attrs| => ConfiguredUser(d, attrs[i]))
    else []
  }

  function ConfiguredLists(d: Data, files: Files): seq<Blacklist> {
    Lists(Attributes(d, "DomainFiles"), files)
  }

  function UserPolicy(d: Data, lists: seq<Blacklist>, name: string): Policy {
    Policy(name, Kept(Values(d, name, "domains"), lists))
  }

  function ConfiguredPolicies(d: Data, lists: seq<Blacklist>): seq<Policy> {
    var users := ConfiguredUsers(d);
    seq(|users|, i requires 0 <= i < |users| => UserPolicy(d, lists, users[i].name))
      + [Policy(GLOBAL, Values(d, "Proxy", "global_domains"))]
  }

  // ---- The start-up code ----

  // MultiValueAttribute::GetValue(index, value)
  method ValueAt(values: seq<string>, index: nat) returns (ok: bool, value: string)
    ensures ok <==> index < |values|
    ensures ok ==> value == values[index]
  {
    if index > |values| {
      return false, "";
    }
    for i := 0 to |values|
      invariant i <= index
    {
      if i == index {
        return true, values[i];
      }
    }
    return false, "";
  }

  method LoadLists(d: Data, files: Files, lists: BlacklistList)
    requires lists.lists == []
    modifies lists
    ensures lists.lists == ConfiguredLists(d, files)
  {
    var attrs := Attributes(d, "DomainFiles");
    for i := 0 to |attrs|
      invariant lists.lists == Lists(attrs[..i], files)
    {
      assert attrs[..i + 1][..i] == attrs[..i];
      var hosts := files(First(attrs[i].values));
      if hosts.Some? {
        lists.AddList(Blacklist(attrs[i].name, hosts.value));
      }
    }
    assert attrs[..|attrs|] == attrs;
  }

  method KeepLoaded(names: seq<string>, lists: BlacklistList) returns (kept: seq<string>)
    ensures kept == Kept(names, lists.lists)
  {
    var idx := 0;
    kept := [];
    var more, name := ValueAt(names, idx);
    while more
      invariant more <==> idx < |names|
      invariant more ==> name == names[idx]
      invariant idx <= |names| && kept == Kept(names[..idx], lists.lists)
      decreases |names| - idx
    {
      assert names[..idx + 1][..idx] == names[..idx];
      var has := lists.HasList(name);
      if has {
        kept := kept + [name];
      }
      idx := idx + 1;
      more, name := ValueAt(names, idx);
    }
    assert names[..idx] == names;
  }

  // The table ends in u, and no other entry has its name.
  ghost predicate EndsIn(users: seq<User>, others: seq<User>, u: User) {
    users == others + [u] && forall i :: 0 <= i < |others| ==> others[i].name != u.name
  }

  method AddIps(auth: AuthManager, name: string, ips: seq<string>, ghost others: seq<User>, ghost u: User)
    requires EndsIn(auth.users, others, u) && u.name == name && u.ips == []
    modifies auth`users
    ensures EndsIn(auth.users, others, u.(ips := ips))
  {
    var idx := 0;
    var more, ip := ValueAt(ips, idx);
    assert ips[..0] == [];
    while more
      invariant more <==> idx < |ips|
      invariant more ==> ip == ips[idx]
      invariant idx <= |ips| && EndsIn(auth.users, others, u.(ips := ips[..idx]))
      decreases |ips| - idx
    {
      auth.AddUserIp(name, ip);
      assert ips[..idx + 1] == ips[..idx] + [ip];
      assert auth.users == others + [u.(ips := ips[..idx + 1])];
      idx := idx + 1;
      more, ip := ValueAt(ips, idx);
    }
    assert ips[..idx] == ips;
  }

  lemma {:induction false} FindLast(users: seq<User>, others: seq<User>, u: User)
    requires EndsIn(users, others, u)
    ensures FindUser(users, u.name) == |others|
  {
    var i := FindUser(users, u.name);
    assert users[|others|] == u;
    forall k | 0 <= k < |others| ensures users[k].name != u.name {
      assert users[k] == others[k];
    }
  }

  function WithSchedule(u: User, i: nat, s: string): User
    requires i < DAYS
  {
    if |s| == INTERVALS then u.(week := u.week[i := FromString(s)]) else u
  }

  method SetDay(auth: AuthManager, name: string, i: nat, s: string, ghost others: seq<User>, ghost u: User)
    requires EndsIn(auth.users, others, u) && u.name == name && i < DAYS
    modifies auth`users
    ensures EndsIn(auth.users, others, WithSchedule(u, i, s))
  {
    if s != "" {
      FindLast(auth.users, others, u);
      var ok := auth.SetWeeklyAccess(name, DAY_NAMES[i], s);
      assert DayIndex(DAY_NAMES[i]) == Some(i);
      assert auth.users == others + [WithSchedule(u, i, s)];
    }
  }

  method SetWeek(auth: AuthManager, d: Data, name: string, ghost others: seq<User>, ghost u: User)
    requires EndsIn(auth.users, others, u) && u.name == name && u.week == AllWeek()
    modifies auth`users
    ensures EndsIn(auth.users, others, u.(week := FirstDays(d, name, DAYS)))
  {
    hide FirstDays, EndsIn, Values;
    OneMoreDay(d, name, 0);
    for i := 0 to DAYS
      invariant EndsIn(auth.users, others, u.(week := FirstDays(d, name, i)))
    {
      OneMoreDay(d, name, i);
      SetDay(auth, name, i, First(Values(d, name, DAY_NAMES[i])), others, u.(week := FirstDays(d, name, i)));
    }
  }

  lemma OneMoreDay(d: Data, name: string, i: nat)
    requires i < DAYS
    ensures var s := First(Values(d, name, DAY_NAMES[i]));
      FirstDays(d, name, i + 1)
        == if |s| == INTERVALS then FirstDays(d, name, i)[i := FromString(s)] else FirstDays(d, name, i)
    ensures FirstDays(d, name, 0) == AllWeek()
  {
    hide Values, FromString, AllDay;
    var after := FirstDays(d, name, i + 1);
    assert forall j :: 0 <= j < DAYS && j != i ==> after[j] == FirstDays(d, name, i)[j];
  }

  method ConfigureUser(d: Data, a: Attribute, auth: AuthManager, policies: UserPolicyList, lists: BlacklistList)
    requires forall i :: 0 <= i < |auth.users| ==> auth.users[i].name != a.name
    modifies auth`users, policies
    ensures auth.users == old(auth.users) + [ConfiguredUser(d, a)]
    ensures policies.policies == old(policies.policies) + [UserPolicy(d, lists.lists, a.name)]
  {
    hide Values, FirstDays, Kept;
    ghost var others := auth.users;
    auth.AddUser(a.name, First(a.values));
    var domains := KeepLoaded(Values(d, a.name, "domains"), lists);
    var ips := Values(d, a.name, "ip_list");
    ghost var u := User(a.name, First(a.values), [], AllWeek(), false);
    AddIps(auth, a.name, ips, others, u);
    u := u.(ips := ips);
    if IsEnabled(d, a.name, "audit") {
      auth.SetAudit(a.name, true);
      u := u.(audit := true);
      assert auth.users == others + [u];
    }
    if IsEnabled(d, a.name, "time_based_policy") {
      SetWeek(auth, d, a.name, others, u);
    }
    policies.AddPolicy(Policy(a.name, domains));
  }

  method AddUsers(d: Data, auth: AuthManager, policies: UserPolicyList, lists: BlacklistList)
    requires DistinctAttributes(Attributes(d, "UserAuth"))
    requires auth.users == [] && policies.policies == []
    modifies auth`users, policies
    ensures |auth.users| == |policies.policies| == |Attributes(d, "UserAuth")|
    ensures forall k :: 0 <= k < |auth.users| ==> auth.users[k] == ConfiguredUser(d, Attributes(d, "UserAuth")[k])
    ensures forall k :: 0 <= k < |auth.users| ==>
      policies.policies[k] == UserPolicy(d, lists.lists, Attributes(d, "UserAuth")[k].name)
  {
    hide Values, Attributes, Kept, Week;
    var attrs := Attributes(d, "UserAuth");
    for i := 0 to |attrs|
      invariant |auth.users| == |policies.policies| == i
      invariant forall k :: 0 <= k < i ==> auth.users[k] == ConfiguredUser(d, attrs[k])
      invariant forall k :: 0 <= k < i ==> policies.policies[k] == UserPolicy(d, lists.lists, attrs[k].name)
    {
      ConfigureUser(d, attrs[i], auth, policies, lists);
    }
  }

  // DoConfig, from the loaded data on. Nothing is configured before it runs.
  method Configure(d: Data, files: Files, auth: AuthManager, policies: UserPolicyList, lists: BlacklistList)
    requires DistinctNames(d)
    requires auth.users == [] && !auth.enabled && policies.policies == [] && lists.lists == []
    modifies auth, policies, lists
    ensures auth.enabled <==> IsEnabled(d, "Proxy", "auth")
    ensures auth.users == ConfiguredUsers(d)
    ensures lists.lists == ConfiguredLists(d, files)
    ensures policies.policies == ConfiguredPolicies(d, ConfiguredLists(d, files))
  {
    hide Values, Kept, Week, Lists;
    LoadLists(d, files, lists);
    if IsEnabled(d, "Proxy", "auth") {
      auth.enabled := true;
      AddUsers(d, auth, policies, lists);
      assert auth.users == ConfiguredUsers(d);
    }
    policies.AddPolicy(Policy(GLOBAL, Values(d, "Proxy", "global_domains")));
    assert policies.policies == ConfiguredPolicies(d, lists.lists);
  }

  function DataOf(file: Option<string>): Data {
    match file
    case Some(text) => Load(text)
    case None => []
  }

  // The whole of DoConfig; a configuration file that does not open configures only the empty
  // global policy.
  method DoConfig(file: Option<string>, files: Files, auth: AuthManager, policies: UserPolicyList,
                  lists: BlacklistList)
    requires file.Some? ==> Readable(Lines(file.value))
    requires auth.users == [] && !auth.enabled && policies.policies == [] && lists.lists == []
    modifies auth, policies, lists
    ensures auth.enabled <==> IsEnabled(DataOf(file), "Proxy", "auth")
    ensures auth.users == ConfiguredUsers(DataOf(file))
    ensures lists.lists == ConfiguredLists(DataOf(file), files)
    ensures policies.policies == ConfiguredPolicies(DataOf(file), ConfiguredLists(DataOf(file), files))
  {
    hide Values, ConfiguredUsers, ConfiguredLists, ConfiguredPolicies, RecordAll, FactsOf, Readable, Lines;
    var config := new ConfigFile();
    config.LoadData(file);
    if file.Some? {
      LoadedExactly(file.value, "", "");
    }
    Configure(config.store.sections, files, auth, policies, lists);
  }

  // ---- Reading the configuration ----

  lemma FirstIs(value: string, more: seq<string>)
    ensures First([]) == "" && First([value] + more) == value
  {}

  lemma EnabledExactly(d: Data, section: string, key: string)
    ensures IsEnabled(d, section, key) <==>
      Values(d, section, key) != [] && Values(d, section, key)[0] == "enabled"
  {
    hide Values;
  }

  // A loaded file has a key exactly when its lines give it a value.
  lemma KeyGiven(text: string, section: string, key: string)
    requires Readable(Lines(text))
    ensures HasKey(Load(text), section, key) <==> ValuesIn(FactsOf(Lines(text), ""), section, key) != []
  {
    LoadedExactly(text, section, key);
    RecordAllFull([], FactsOf(Lines(text), ""));
    hide RecordAll, FactsOf, Lines, Readable, ValuesIn;
    KeyFilled(Load(text), section, key);
  }

  lemma KeyFilled(d: Data, section: string, key: string)
    requires NoEmptyAttribute(d)
    ensures HasKey(d, section, key) <==> Values(d, section, key) != []
  {
    KeyFound(d, section, key);
    hide FindAttribute, HasKey;
  }

  // The attributes of a section are all of those under its name, in order.
  lemma AttributesExactly(d: Data, section: string)
    requires DistinctNames(d)
    ensures forall i :: 0 <= i < |d| && d[i].name == section ==> Attributes(d, section) == d[i].attributes
    ensures (forall i :: 0 <= i < |d| ==> d[i].name != section) ==> Attributes(d, section) == []
  {
    hide FindSection;
  }

  // Without a file nothing is configured but the empty global policy; without authentication there
  // are no users.
  lemma NothingConfigured(d: Data, files: Files)
    ensures ConfiguredUsers(DataOf(None)) == [] && !IsEnabled(DataOf(None), "Proxy", "auth")
    ensures ConfiguredLists(DataOf(None), files) == []
    ensures ConfiguredPolicies(DataOf(None), []) == [Policy("<global>", [])]
    ensures !IsEnabled(d, "Proxy", "auth") ==> ConfiguredUsers(d) == []
  {}

  // ---- What the configuration lets through ----

  lemma UserNames(d: Data, name: string)
    requires DistinctNames(d) && IsEnabled(d, "Proxy", "auth")
    ensures var users, i := ConfiguredUsers(d), FindAttribute(Attributes(d, "UserAuth"), name);
      && FindUser(users, name) == i
      && (i < |users| <==> HasKey(d, "UserAuth", name))
      && (i < |users| ==> users[i] == ConfiguredUser(d, Attributes(d, "UserAuth")[i]))
      && forall k :: 0 <= k < |users| && users[k].name == name ==> k == i
  {
    hide Values, Week;
    var attrs := Attributes(d, "UserAuth");
    var users := ConfiguredUsers(d);
    var i, f := FindAttribute(attrs, name), FindUser(users, name);
    assert forall k :: 0 <= k < |users| ==> users[k].name == attrs[k].name;
  }

  // The configured table has the distinct, non-empty names that the admission decision relies on.
  lemma ConfiguredNames(d: Data)
    requires DistinctNames(d)
    requires forall i :: 0 <= i < |Attributes(d, "UserAuth")| ==> Attributes(d, "UserAuth")[i].name != ""
    ensures UniqueNames(ConfiguredUsers(d))
  {
    hide Values, Week;
    var attrs := Attributes(d, "UserAuth");
    assert forall k :: 0 <= k < |ConfiguredUsers(d)| ==> ConfiguredUsers(d)[k].name == attrs[k].name;
  }

  // A name and password are good when the configuration gives that password first under that name.
  lemma ConfiguredCredentials(d: Data, name: string, password: string)
    requires DistinctNames(d) && IsEnabled(d, "Proxy", "auth")
    ensures HasCredentials(ConfiguredUsers(d), name, password)
      <==> HasKey(d, "UserAuth", name) && First(Values(d, "UserAuth", name)) == password
  {
    hide Week;
    UserNames(d, name);
    assert Values(d, "UserAuth", name) == AttributeValues(Attributes(d, "UserAuth"), name);
  }

  // The half hours a configuration closes: the user's schedule is enabled, has exactly 48 characters
  // for that day, and the character of the half hour is x or X.
  ghost predicate Closed(d: Data, name: string, t: LocalTime) {
    && t.Valid()
    && IsEnabled(d, name, "time_based_policy")
    && var s := First(Values(d, name, DAY_NAMES[t.wday]));
       |s| == 48 && var i := 2 * t.hour + t.minute / 30; i < |s| && (s[i] == 'x' || s[i] == 'X')
  }

  lemma WeekOpen(d: Data, name: string, t: LocalTime)
    requires t.Valid()
    ensures PermittedInWeek(Week(d, name), t) <==> !Closed(d, name, t)
  {
    hide Values;
    var s := First(Values(d, name, DAY_NAMES[t.wday]));
    if |s| == INTERVALS {
      PermittedByCharacter(s, t);
    }
    assert MinutesToIntervals(t.hour, t.minute) < INTERVALS;
  }

  lemma ConfiguredAccess(d: Data, name: string, t: LocalTime)
    requires DistinctNames(d) && IsEnabled(d, "Proxy", "auth") && t.Valid()
    ensures AccessAllowed(ConfiguredUsers(d), name, Some(t)) <==> HasKey(d, "UserAuth", name) && !Closed(d, name, t)
  {
    hide Week, Closed, Values;
    UserNames(d, name);
    WeekOpen(d, name, t);
  }

  // With authentication on, Basic credentials are admitted exactly when the file lists the user with
  // that password and leaves the half hour open.
  lemma ConfiguredDecision(d: Data, before: string, user: string, password: string, prefix: string,
                           suffix: string, request: string, ip: string, t: LocalTime)
    requires DistinctNames(d) && IsEnabled(d, "Proxy", "auth") && t.Valid()
    requires forall i :: 0 <= i < |Attributes(d, "UserAuth")| ==> Attributes(d, "UserAuth")[i].name != ""
    requires IsUserId(user) && IsField(password)
    requires Carries(request, HEADER, prefix, Token(user, password), suffix)
    ensures Decide(true, ConfiguredUsers(d), before, request, ip, Some(t)) == Admit(user) <==>
      && HasKey(d, "UserAuth", user)
      && First(Values(d, "UserAuth", user)) == password
      && !Closed(d, user, t)
  {
    hide Carries, Token, Values, Week, Closed, Attributes, Decide, IsUserId, IsField;
    ConfiguredNames(d);
    CredentialDecision(ConfiguredUsers(d), before, user, password, prefix, suffix, request, ip, Some(t));
    ConfiguredCredentials(d, user, password);
    ConfiguredAccess(d, user, t);
    TableEntry(ConfiguredUsers(d), user, password, t);
  }

  // From the text of the file to the decision, with every lookup read off the stream of its lines.
  lemma TextDecision(text: string, before: string, user: string, password: string, prefix: string,
                     suffix: string, request: string, ip: string, t: LocalTime)
    requires Readable(Lines(text)) && IsEnabled(Load(text), "Proxy", "auth") && t.Valid()
    requires IsUserId(user) && IsField(password)
    requires Carries(request, HEADER, prefix, Token(user, password), suffix)
    ensures Decide(true, ConfiguredUsers(Load(text)), before, request, ip, Some(t)) == Admit(user) <==>
      && !Closed(Load(text), user, t)
      && var passwords := ValuesIn(FactsOf(Lines(text), ""), "UserAuth", user);
         passwords != [] && passwords[0] == password
  {
    hide Carries, Token, Values, Decide, IsUserId, IsField, Load, Closed, Readable, Lines, FactsOf, ConfiguredUsers,
      HasKey;
    LoadedExactly(text, "UserAuth", user);
    KeyGiven(text, "UserAuth", user);
    ConfiguredDecision(Load(text), before, user, password, prefix, suffix, request, ip, t);
  }

  // The user is the first one in the file whose section lists the address.
  ghost predicate FirstListing(d: Data, ip: string, name: string) {
    exists i :: 0 <= i < |Attributes(d, "UserAuth")| && Attributes(d, "UserAuth")[i].name == name
      && ListsFirst(d, ip, i)
  }

  ghost predicate ListsFirst(d: Data, ip: string, i: nat)
    requires i < |Attributes(d, "UserAuth")|
  {
    var attrs := Attributes(d, "UserAuth");
    && ip in Values(d, attrs[i].name, "ip_list")
    && forall k :: 0 <= k < i ==> ip !in Values(d, attrs[k].name, "ip_list")
  }

  lemma ConfiguredIp(d: Data, ip: string, name: string)
    requires IsEnabled(d, "Proxy", "auth")
    ensures IpUser(ConfiguredUsers(d), ip) == Some(name) <==> FirstListing(d, ip, name)
  {
    hide Values, Week, Attributes, FindIp;
    var attrs, users := Attributes(d, "UserAuth"), ConfiguredUsers(d);
    assert forall k :: 0 <= k < |users| ==> users[k] == ConfiguredUser(d, attrs[k]);
    var f := FindIp(users, ip);
    if f < |users| {
      assert ListsFirst(d, ip, f);
    }
    forall i | 0 <= i < |attrs| && ListsFirst(d, ip, i) ensures i == f {
      assert users[i].ips == Values(d, attrs[i].name, "ip_list");
    }
  }

  // With authentication on, a request without credentials is admitted exactly under the name of the
  // first user of the file who lists its address, while the file leaves the half hour open.
  lemma ConfiguredAddress(d: Data, before: string, request: string, ip: string, t: LocalTime, name: string)
    requires DistinctNames(d) && IsEnabled(d, "Proxy", "auth") && t.Valid()
    requires forall i :: 0 <= i < |Attributes(d, "UserAuth")| ==> Attributes(d, "UserAuth")[i].name != ""
    requires HeaderToken(request).None?
    ensures Decide(true, ConfiguredUsers(d), before, request, ip, Some(t)) == Admit(name) <==>
      FirstListing(d, ip, name) && !Closed(d, name, t)
  {
    hide HeaderToken, Values, Week, Closed, Attributes, FindIp, ConfiguredUsers, FirstListing, AccessAllowed, HasKey;
    ConfiguredIp(d, ip, name);
    ConfiguredAccess(d, name, t);
    ListingIsKey(d, ip, name);
  }

  lemma ListingIsKey(d: Data, ip: string, name: string)
    ensures FirstListing(d, ip, name) ==> HasKey(d, "UserAuth", name)
  {
    hide Values, Attributes;
  }

  // The same from the text, the addresses read off the stream of its lines.
  lemma TextAddress(text: string, before: string, request: string, ip: string, t: LocalTime, name: string)
    requires Readable(Lines(text)) && IsEnabled(Load(text), "Proxy", "auth") && t.Valid()
    requires HeaderToken(request).None?
    ensures var d := Load(text);
      Decide(true, ConfiguredUsers(d), before, request, ip, Some(t)) == Admit(name) <==>
      && !Closed(d, name, t)
      && exists i :: 0 <= i < |Attributes(d, "UserAuth")| && Attributes(d, "UserAuth")[i].name == name
           && GivesFirst(text, ip, i)
  {
    var d := Load(text);
    hide HeaderToken, Values, Decide, Load, Closed, Readable, Lines, FactsOf, ConfiguredUsers, ListsFirst, GivesFirst;
    LoadedExactly(text, "", "");
    ConfiguredAddress(d, before, request, ip, t, name);
    forall i: nat | i < |Attributes(d, "UserAuth")| ensures ListsFirst(d, ip, i) <==> GivesFirst(text, ip, i) {
      ListingGiven(text, ip, i);
    }
  }

  // The lines of the file give the address to user i and to no user before it.
  ghost predicate GivesFirst(text: string, ip: string, i: nat)
    requires i < |Attributes(Load(text), "UserAuth")|
  {
    var attrs := Attributes(Load(text), "UserAuth");
    && ip in ValuesIn(FactsOf(Lines(text), ""), attrs[i].name, "ip_list")
    && forall k :: 0 <= k < i ==> ip !in ValuesIn(FactsOf(Lines(text), ""), attrs[k].name, "ip_list")
  }

  lemma ListingGiven(text: string, ip: string, i: nat)
    requires Readable(Lines(text)) && i < |Attributes(Load(text), "UserAuth")|
    ensures ListsFirst(Load(text), ip, i) <==> GivesFirst(text, ip, i)
  {
    hide Values, Load, Readable, Lines, FactsOf, Attributes, ValuesIn;
    var attrs := Attributes(Load(text), "UserAuth");
    forall k | 0 <= k <= i ensures
      Values(Load(text), attrs[k].name, "ip_list") == ValuesIn(FactsOf(Lines(text), ""), attrs[k].name, "ip_list") {
      LoadedExactly(text, attrs[k].name, "ip_list");
    }
  }

  // Auditing is on exactly for the users that the file lists and whose section says so.
  lemma ConfiguredAudit(d: Data, name: string)
    requires DistinctNames(d) && IsEnabled(d, "Proxy", "auth")
    ensures AuditEnabled(ConfiguredUsers(d), name) <==>
      HasKey(d, "UserAuth", name) && First(Values(d, name, "audit")) == "enabled"
  {
    hide Values, Week, HasKey;
    UserNames(d, name);
  }

  lemma TextAudit(text: string, name: string)
    requires Readable(Lines(text)) && IsEnabled(Load(text), "Proxy", "auth")
    ensures AuditEnabled(ConfiguredUsers(Load(text)), name) <==>
      && ValuesIn(FactsOf(Lines(text), ""), "UserAuth", name) != []
      && var settings := ValuesIn(FactsOf(Lines(text), ""), name, "audit");
         settings != [] && settings[0] == "enabled"
  {
    hide Values, Load, Readable, Lines, FactsOf, ConfiguredUsers, HasKey, AuditEnabled;
    LoadedExactly(text, name, "audit");
    KeyGiven(text, "UserAuth", name);
    ConfiguredAudit(Load(text), name);
  }

  lemma TableEntry(users: seq<User>, name: string, password: string, t: LocalTime)
    requires UniqueNames(users)
    ensures HasCredentials(users, name, password) && AccessAllowed(users, name, Some(t)) <==>
      exists i :: 0 <= i < |users| && users[i].name == name && users[i].password == password
        && PermittedInWeek(users[i].week, t)
  {
    hide PermittedInWeek;
    var f := FindUser(users, name);
  }

  // ---- Lists ----

  // The hosts of a list: those in the file that `DomainFiles` gives first under its name; None when
  // it gives none or the file does not open.
  function ListedHosts(d: Data, files: Files, name: string): Option<set<string>> {
    if HasKey(d, "DomainFiles", name) then files(First(Values(d, "DomainFiles", name))) else None
  }

  lemma ListFound(lists: seq<Blacklist>, name: string, i: nat)
    requires i <= |lists| && forall k :: 0 <= k < i ==> lists[k].name != name
    requires i < |lists| ==> lists[i].name == name
    ensures FindList(lists, name) == i
  {}

  lemma ListAppended(lists: seq<Blacklist>, l: Blacklist, name: string, host: string)
    requires !Loaded(lists, l.name)
    ensures Loaded(lists + [l], name) <==> Loaded(lists, name) || l.name == name
    ensures ListAllows(lists + [l], name, host) <==>
      if l.name == name then host !in l.hosts else ListAllows(lists, name, host)
  {
    hide FindList;
    var i, all := FindList(lists, name), lists + [l];
    assert all[|lists|] == l && forall k :: 0 <= k < |lists| ==> all[k] == lists[k];
    ListFound(all, name, if i < |lists| then i else if l.name == name then |lists| else |all|);
  }

  lemma {:induction false} ListsHold(attrs: seq<Attribute>, files: Files, name: string, host: string)
    requires DistinctAttributes(attrs)
    ensures var lists := Lists(attrs, files);
      var i := FindAttribute(attrs, name);
      var hosts := if i < |attrs| then files(First(attrs[i].values)) else None;
      && (Loaded(lists, name) <==> hosts.Some?)
      && (ListAllows(lists, name, host) <==> hosts.Some? && host !in hosts.value)
    decreases |attrs|
  {
    hide FindAttribute, ListAllows, Loaded;
    if attrs == [] {
      NoLists(name, host);
    } else {
      var front, a := attrs[..|attrs| - 1], attrs[|attrs| - 1];
      assert attrs == front + [a];
      ListsHold(front, files, name, host);
      ListsHold(front, files, a.name, host);
      FindAttributeAppended(front, a, name);
      forall k | 0 <= k < |front| ensures front[k].name != a.name {
        assert attrs[k] == front[k] && attrs[|front|] == a;
      }
      var hosts, lists := files(First(a.values)), Lists(front, files);
      if hosts.Some? {
        ListAppended(lists, Blacklist(a.name, hosts.value), name, host);
      } else {
        assert lists + [] == lists;
      }
    }
  }

  lemma NoLists(name: string, host: string)
    ensures !Loaded([], name) && !ListAllows([], name, host)
  {}

  // After start-up a list is loaded exactly when the configuration names it and its file opens, and
  // it holds the hosts of that file.
  lemma ConfiguredList(d: Data, files: Files, name: string, host: string)
    requires DistinctNames(d)
    ensures var lists, hosts := ConfiguredLists(d, files), ListedHosts(d, files, name);
      && (Loaded(lists, name) <==> hosts.Some?)
      && (ListAllows(lists, name, host) <==> hosts.Some? && host !in hosts.value)
  {
    var attrs := Attributes(d, "DomainFiles");
    ListsHold(attrs, files, name, host);
    KeyFound(d, "DomainFiles", name);
    hide Lists, FindAttribute, ListAllows, Loaded, HasKey, Values;
  }

  lemma KeyFound(d: Data, section: string, key: string)
    ensures var attrs := Attributes(d, section);
      var i := FindAttribute(attrs, key);
      && (HasKey(d, section, key) <==> i < |attrs|)
      && (i < |attrs| ==> Values(d, section, key) == attrs[i].values)
  {
    hide FindAttribute;
  }

  // ---- Policies ----

  lemma PoliciesFound(d: Data, lists: seq<Blacklist>, name: string)
    ensures var users := ConfiguredUsers(d);
      Domains(ConfiguredPolicies(d, lists), name) ==
        if FindUser(users, name) < |users| then Kept(Values(d, name, "domains"), lists)
        else if name == GLOBAL then Values(d, "Proxy", "global_domains") else []
  {
    hide Kept, Values, ConfiguredUsers;
    var users, policies := ConfiguredUsers(d), ConfiguredPolicies(d, lists);
    var i, f := FindUser(users, name), FindPolicy(policies, name);
    assert forall k :: 0 <= k < |users| ==> policies[k] == UserPolicy(d, lists, users[k].name);
    assert |policies| == |users| + 1 && policies[|users|].name == GLOBAL;
    if i < |users| {
      assert policies[i].name == name;
    }
    if f < |users| {
      assert users[f].name == name;
    }
  }

  // Provided no user is called `<global>`: a list the user's own section names counts only when it
  // is loaded, and a list the global policy names denies everything when it is not.
  lemma ConfiguredPolicy(d: Data, lists: seq<Blacklist>, name: string, host: string)
    requires FindUser(ConfiguredUsers(d), GLOBAL) == |ConfiguredUsers(d)|
    ensures Allowed(ConfiguredPolicies(d, lists), lists, name, host) <==>
      && (FindUser(ConfiguredUsers(d), name) < |ConfiguredUsers(d)| ==>
            forall n :: n in Values(d, name, "domains") && Loaded(lists, n) ==> ListAllows(lists, n, host))
      && (forall n :: n in Values(d, "Proxy", "global_domains") ==> ListAllows(lists, n, host))
  {
    hide ConfiguredPolicies, ConfiguredUsers, Values, ListAllows, FindUser;
    PoliciesFound(d, lists, name);
    PoliciesFound(d, lists, GLOBAL);
  }

  // The same from the configuration and the files alone: a user is kept from the hosts of the lists in
  // the user's own section whose files open, and of the lists of the global policy, and from every
  // host when the file of one of the latter does not open.
  lemma ConfiguredHosts(d: Data, files: Files, name: string, host: string)
    requires DistinctNames(d) && FindUser(ConfiguredUsers(d), GLOBAL) == |ConfiguredUsers(d)|
    ensures Allowed(ConfiguredPolicies(d, ConfiguredLists(d, files)), ConfiguredLists(d, files), name, host) <==>
      && (FindUser(ConfiguredUsers(d), name) < |ConfiguredUsers(d)| ==> Spared(d, files, name, host))
      && GloballySpared(d, files, host)
  {
    hide ConfiguredPolicies, ConfiguredUsers, ConfiguredLists, ListedHosts, Values, ListAllows, FindUser, Loaded;
    var lists := ConfiguredLists(d, files);
    ConfiguredPolicy(d, lists, name, host);
    forall n ensures var hosts := ListedHosts(d, files, n);
      (Loaded(lists, n) <==> hosts.Some?) && (ListAllows(lists, n, host) <==> hosts.Some? && host !in hosts.value) {
      ConfiguredList(d, files, n, host);
    }
  }

  ghost predicate Spared(d: Data, files: Files, name: string, host: string) {
    forall n :: n in Values(d, name, "domains") && ListedHosts(d, files, n).Some? ==>
      host !in ListedHosts(d, files, n).value
  }

  ghost predicate GloballySpared(d: Data, files: Files, host: string) {
    forall n :: n in Values(d, "Proxy", "global_domains") ==>
      ListedHosts(d, files, n).Some? && host !in ListedHosts(d, files, n).value
  }

  // A denial by a list that is not loaded comes from the global policy.
  lemma UnloadedDenial(d: Data, lists: seq<Blacklist>, name: string, n: string)
    requires n in Domains(ConfiguredPolicies(d, lists), name) && !Loaded(lists, n)
    ensures name == GLOBAL && FindUser(ConfiguredUsers(d), GLOBAL) == |ConfiguredUsers(d)|
    ensures n in Values(d, "Proxy", "global_domains")
  {
    hide ConfiguredPolicies, ConfiguredUsers, Values, Loaded, FindUser;
    PoliciesFound(d, lists, name);
  }

  // The hypothesis above is needed: a user called `<global>` takes the place of the global policy.
  lemma GlobalShadowed(d: Data, lists: seq<Blacklist>)
    ensures Domains(ConfiguredPolicies(d, lists), GLOBAL) == Values(d, "Proxy", "global_domains") <==>
      (FindUser(ConfiguredUsers(d), GLOBAL) < |ConfiguredUsers(d)| ==>
        Kept(Values(d, GLOBAL, "domains"), lists) == Values(d, "Proxy", "global_domains"))
  {
    hide ConfiguredPolicies, ConfiguredUsers, Values, Kept, FindUser;
    PoliciesFound(d, lists, GLOBAL);
  }

  const SHADOWING: Data :=
    [Section("Proxy", [Attribute("auth", ["enabled"]), Attribute("global_domains", ["ads"])]),
     Section("UserAuth", [Attribute(GLOBAL, ["pw"])])]

  // A file whose global policy is empty in force although it names a list.
  lemma GlobalIsShadowed(lists: seq<Blacklist>) returns (text: string)
    ensures Readable(Lines(text))
    ensures Values(Load(text), "Proxy", "global_domains") == ["ads"]
    ensures Domains(ConfiguredPolicies(Load(text), lists), GLOBAL) == []
  {
    ShadowingPrints();
    ShadowingValues();
    hide *;
    text := Print(SHADOWING);
    PrintLoad(SHADOWING);
    PoliciesFound(SHADOWING, lists, GLOBAL);
    NothingKept(lists);
  }

  lemma NothingKept(lists: seq<Blacklist>)
    ensures Kept([], lists) == []
  {}

  lemma ShadowingPrints()
    ensures Printable(SHADOWING)
  {
    hide IsPlain;
    PlainWords();
    var proxy, users := SHADOWING[0].attributes, SHADOWING[1].attributes;
    assert PlainAttribute(proxy[0]) && PlainAttribute(proxy[1]) && PlainAttribute(users[0]);
    assert PlainSection(SHADOWING[0]) && PlainSection(SHADOWING[1]);
  }

  predicate PlainChar(c: char) {
    'a' <= c <= 'z' || 'A' <= c <= 'Z' || c == '_' || c == '<' || c == '>'
  }

  lemma PlainByChars(w: string)
    requires 0 < |w| < BUFFER && forall i :: 0 <= i < |w| ==> PlainChar(w[i])
    ensures IsPlain(w)
  {}

  lemma PlainWords()
    ensures IsPlain("Proxy") && IsPlain("auth") && IsPlain("enabled") && IsPlain("global_domains") && IsPlain("ads")
    ensures IsPlain("UserAuth") && IsPlain(GLOBAL) && IsPlain("pw")
  {
    hide IsPlain;
    PlainByChars("Proxy");
    PlainByChars("auth");
    PlainByChars("enabled");
    PlainByChars("global_domains");
    PlainByChars("ads");
    PlainByChars("UserAuth");
    PlainByChars(GLOBAL);
    PlainByChars("pw");
  }

  lemma ShadowingValues()
    ensures Values(SHADOWING, "Proxy", "global_domains") == ["ads"]
    ensures Values(SHADOWING, GLOBAL, "domains") == []
    ensures FindUser(ConfiguredUsers(SHADOWING), GLOBAL) < |ConfiguredUsers(SHADOWING)|
  {
    assert FindSection(SHADOWING, "UserAuth") == 1;
    assert Attributes(SHADOWING, "UserAuth") == [Attribute(GLOBAL, ["pw"])];
    assert Values(SHADOWING, "Proxy", "auth") == ["enabled"];
    hide Values, Attributes, Week;
    assert |ConfiguredUsers(SHADOWING)| == 1 && ConfiguredUsers(SHADOWING)[0].name == GLOBAL;
  }
}
