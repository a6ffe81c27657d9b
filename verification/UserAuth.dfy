// The user table and the admission decision: Basic credentials (section 2 of RFC 7617) or a
// known client address, then the half-hour schedule of the user.

module UserAuth {
  import opened CStrings
  import opened Words
  import opened Base64
  import opened TimeMap

  datatype User = User(name: string, password: string, ips: seq<string>, week: WeekMap, audit: bool)

  // What happens to the session, and the user name left on it.
  datatype Decision = Admit(user: string) | Forbid(user: string) | Challenge(user: string)

  const HEADER := "Proxy-Authorization: Basic "
  const RAW_CREDS_MAX: nat := 1024
  const FIELD_MAX: nat := 127

  // ---- Lookups in the user table ----

  function FindUser(users: seq<User>, name: string): (i: nat)
    ensures i <= |users|
    ensures i < |users| ==> users[i].name == name
    ensures forall k :: 0 <= k < i ==> users[k].name != name
  {
    if users == [] || users[0].name == name then 0 else 1 + FindUser(users[1..], name)
  }

  predicate HasCredentials(users: seq<User>, name: string, password: string) {
    exists i :: 0 <= i < |users| && users[i].name == name && users[i].password == password
  }

  // The first user listing the address.
  function FindIp(users: seq<User>, ip: string): (i: nat)
    ensures i <= |users|
    ensures i < |users| ==> ip in users[i].ips
    ensures forall k :: 0 <= k < i ==> ip !in users[k].ips
  {
    if users == [] || ip in users[0].ips then 0 else 1 + FindIp(users[1..], ip)
  }

  function IpUser(users: seq<User>, ip: string): Option<string> {
    var i := FindIp(users, ip);
    if i < |users| then Some(users[i].name) else None
  }

  // A clock reading is None when localtime() fails.
  predicate AccessAllowed(users: seq<User>, name: string, clock: Option<LocalTime>) {
    var i := FindUser(users, name);
    clock.Some? && i < |users| && PermittedInWeek(users[i].week, clock.value)
  }

  ghost predicate UniqueNames(users: seq<User>) {
    && (forall i :: 0 <= i < |users| ==> users[i].name != "")
    && (forall i, j :: 0 <= i < j < |users| ==> users[i].name != users[j].name)
  }

  // ---- Scanning ----

  // strstr(): the first position where pat occurs, |s| when it does not.
  function FindText(s: string, pat: string): (i: nat)
    ensures i <= |s|
  {
    if s == "" || pat <= s then 0 else 1 + FindText(s[1..], pat)
  }

  // A word cut to the length that sscanf is given.
  function CutWord(w: string): (r: string)
    ensures |r| == if |w| > RAW_CREDS_MAX then RAW_CREDS_MAX else |w|
    ensures |w| <= RAW_CREDS_MAX ==> r == w
  {
    if |w| > RAW_CREDS_MAX then w[..RAW_CREDS_MAX] else w
  }

  // The word after the first occurrence of pat.
  function WordAfter(text: string, pat: string): Option<string> {
    var i := FindText(text, pat);
    if pat <= text[i..] then Some(CutWord(FirstWord(text[i + |pat|..]))) else None
  }

  // The credentials token of a request: None without the header, "" when nothing follows it.
  function HeaderToken(request: string): Option<string> {
    WordAfter(CStr(request), HEADER)
  }

  function ToText(b: seq<byte>): string {
    seq(|b|, i requires 0 <= i < |b| => b[i] as char)
  }

  predicate IsBytes(s: string) {
    forall i :: 0 <= i < |s| ==> s[i] as int < 256
  }

  function ToBytes(s: string): (b: seq<byte>)
    requires IsBytes(s)
    ensures |b| == |s|
  {
    seq(|s|, i requires 0 <= i < |s| => s[i] as int)
  }

  // Characters and bytes have the same codes.
  lemma CodesKept(b: seq<byte>, s: string, i: nat)
    requires IsBytes(s)
    ensures |ToText(b)| == |b| && (i < |b| ==> ToText(b)[i] as int == b[i])
    ensures |ToBytes(s)| == |s| && (i < |s| ==> ToBytes(s)[i] == s[i] as int)
  {}

  // The first colon becomes a blank: the text, and what follows its first word.
  function Spaced(text: string): (r: (string, string))
    ensures NUL !in text ==> NUL !in r.0 && NUL !in r.1
  {
    var i := IndexOf(text, ':');
    var t := if i < |text| then text[i := ' '] else text;
    (t, AfterWord(t))
  }

  // The first two words are user and password.
  function Credentials(text: string): (string, string) {
    var (words, rest) := Spaced(text);
    (FirstWord(words), FirstWord(rest))
  }

  function DecodedCredentials(token: string): (string, string)
    requires Decodable(CStr(token))
  {
    Credentials(CStr(ToText(Decode(CStr(token)))))
  }

  // AuthManager::Authenticate as written: success means only that the token decodes; the name is
  // filled in when the table confirms it.
  function Authenticate(users: seq<User>, token: string): (r: (bool, string)) {
    if Decodable(CStr(token)) then
      var (u, p) := DecodedCredentials(token);
      (true, if HasCredentials(users, u, p) then u else "")
    else (false, "")
  }

  // What a token stores fits its fields of 128 characters; a user name or password without a field
  // would be written past its end.
  predicate TokenFits(token: string) {
    Decodable(CStr(token)) ==>
      |DecodedCredentials(token).0| <= FIELD_MAX && |DecodedCredentials(token).1| <= FIELD_MAX
  }

  // What a request stores fits its fields: the token, with its NUL, 1024 characters, and then the
  // credentials in it.
  predicate Fits(request: string) {
    match HeaderToken(request)
    case Some(token) => |token| < RAW_CREDS_MAX && TokenFits(token)
    case None => true
  }

  // The branch of the detect-result handler that decides whether a session may go on.
  function Decide(enabled: bool, users: seq<User>, user: string, request: string, ip: string,
                  clock: Option<LocalTime>): Decision
  {
    if !enabled then Admit(user)
    else match HeaderToken(request)
      case Some(token) =>
        if token == "" then Forbid(user)
        else
          var (ok, name) := Authenticate(users, token);
          if !ok then Forbid(user)
          else if AccessAllowed(users, name, clock) then Admit(name) else Forbid(name)
      case None =>
        match IpUser(users, ip)
        case Some(name) => if AccessAllowed(users, name, clock) then Admit(name) else Forbid(user)
        case None => Challenge(user)
  }

  // ---- What the decision means ----

  // The request carries credentials that some entry of the table confirms.
  ghost predicate Confirmed(users: seq<User>, token: string, name: string) {
    && Decodable(CStr(token))
    && DecodedCredentials(token).0 == name
    && HasCredentials(users, name, DecodedCredentials(token).1)
  }

  // Who may pass: an entry of the table with this name whose schedule is open now, and who is
  // confirmed by the credentials sent or, when none are sent, is the first to list the address.
  ghost predicate Authorised(users: seq<User>, request: string, ip: string, clock: Option<LocalTime>, name: string) {
    && (exists i :: 0 <= i < |users| && users[i].name == name
          && clock.Some? && PermittedInWeek(users[i].week, clock.value))
    && match HeaderToken(request)
       case Some(token) => token != "" && Confirmed(users, token, name)
       case None => IpUser(users, ip) == Some(name)
  }

  // Although Authenticate answers true for every token that decodes, sessions are admitted exactly
  // as they should be, because an unconfirmed token leaves a name that no user has.
  lemma AdmitsExactlyAuthorised(users: seq<User>, user: string, request: string, ip: string,
                                clock: Option<LocalTime>, name: string)
    requires UniqueNames(users) && Fits(request)
    ensures Decide(true, users, user, request, ip, clock) == Admit(name)
            <==> Authorised(users, request, ip, clock, name)
  {
    hide HeaderToken, DecodedCredentials;
    var f := FindUser(users, name);
    assert FindUser(users, "") == |users|;
    if Authorised(users, request, ip, clock, name) {
      var i :| 0 <= i < |users| && users[i].name == name
        && clock.Some? && PermittedInWeek(users[i].week, clock.value);
      assert f == i;
    }
  }

  // Credentials that decode but that nobody has leave an empty name.
  ghost predicate NamedBy(users: seq<User>, token: string, name: string)
    requires Decodable(CStr(token))
  {
    if Confirmed(users, token, DecodedCredentials(token).0) then name == DecodedCredentials(token).0 else name == ""
  }

  // The refusals, for any table. The client is asked for credentials exactly when it sent none and
  // nobody lists its address. A refusal with 403 leaves the name of the credentials, or none when
  // nobody has them; one without usable credentials leaves the user as it was.
  lemma RefusalsExactly(users: seq<User>, user: string, request: string, ip: string, clock: Option<LocalTime>)
    ensures var d, token := Decide(true, users, user, request, ip, clock), HeaderToken(request);
      && (d.Challenge? <==> token.None? && forall i :: 0 <= i < |users| ==> ip !in users[i].ips)
      && (d.Challenge? ==> d.user == user)
      && (token.None? && d.Forbid? ==> d.user == user)
      && (token.Some? && (token.value == "" || !Decodable(CStr(token.value))) ==> d == Forbid(user))
      && (token.Some? && token.value != "" && Decodable(CStr(token.value)) ==> NamedBy(users, token.value, d.user))
  {
    hide HeaderToken, DecodedCredentials, Decodable, CStr, PermittedInWeek;
    var f := FindIp(users, ip);
    assert f < |users| ==> ip in users[f].ips;
  }

  // Without authentication every session passes, under the user it had.
  lemma AllPass(users: seq<User>, user: string, request: string, ip: string, clock: Option<LocalTime>)
    ensures Decide(false, users, user, request, ip, clock) == Admit(user)
  {}

  // The hypothesis is needed, and nothing more: whatever the table holds, a token that decodes but
  // is not confirmed is admitted exactly when an entry with an empty name is open now.
  lemma UnconfirmedAdmission(users: seq<User>, user: string, request: string, ip: string, clock: Option<LocalTime>)
    requires Fits(request) && HeaderToken(request).Some? && HeaderToken(request).value != ""
    requires Decodable(CStr(HeaderToken(request).value))
    requires forall n :: !Confirmed(users, HeaderToken(request).value, n)
    ensures Decide(true, users, user, request, ip, clock).Admit? <==> AccessAllowed(users, "", clock)
  {
    hide HeaderToken, DecodedCredentials, Decodable, CStr, HasCredentials, PermittedInWeek, FindUser;
    var token := HeaderToken(request).value;
    assert !Confirmed(users, token, DecodedCredentials(token).0);
  }

  // ---- Credentials survive encoding, transport and scanning ----

  // Text that one scan reads as one word.
  predicate IsScanned(s: string) {
    IsBytes(s) && forall i :: 0 <= i < |s| ==> !IsSpace(s[i]) && s[i] != NUL
  }

  predicate IsName(s: string) {
    s != "" && IsScanned(s) && ':' !in s
  }

  predicate IsField(s: string) {
    |s| <= FIELD_MAX && IsScanned(s)
  }

  predicate IsUserId(s: string) {
    IsField(s) && IsName(s)
  }

  function Token(user: string, password: string): string
    requires IsName(user) && IsScanned(password)
  {
    Encode(ToBytes(user + ":" + password))
  }

  // Text ends before the zero padding of its last group.
  lemma CStrOfPadded(s: string, n: nat)
    requires IsBytes(s) && NUL !in s
    ensures CStr(ToText(ToBytes(s) + Zeros(n))) == s
  {
    var t := ToText(ToBytes(s) + Zeros(n));
    assert t[..|s|] == s;
    if n == 0 {
      assert t == s;
      assert IndexOf(s, NUL) == |s|;
    } else {
      assert t[|s|] == NUL;
      assert t == s + [NUL] + t[|s| + 1..];
      IndexOfSplit(s, NUL, t[|s| + 1..]);
    }
  }

  lemma CleanIsCStr(s: string)
    requires IsClean(s)
    ensures CStr(s) == s
  {
    assert NUL !in s;
  }

  lemma CredentialsOf(user: string, password: string)
    requires IsName(user) && IsScanned(password)
    ensures Credentials(user + ":" + password) == (user, password)
  {
    hide FirstWord, AfterWord, IndexOf;
    var text := user + ":" + password;
    assert text == user + [':'] + password;
    IndexOfSplit(user, ':', password);
    var t := text[|user| := ' '];
    assert t == "" + user + (" " + password);
    WordBetween("", user, " " + password);
    if password == "" {
      ScanBlank(" ");
      assert " " + password == " ";
    } else {
      assert " " + password == " " + password + "";
      WordBetween(" ", password, "");
    }
  }

  // Of any decoded text: without a colon the first two words are user and password. With one, what
  // stands before it has the user or, when it is blank, what stands behind it has both; a second word
  // before it is taken for the password.
  lemma CredentialsExactly(text: string)
    ensures ':' !in text ==> Credentials(text) == (FirstWord(text), FirstWord(AfterWord(text)))
    ensures ':' in text ==>
      var i := IndexOf(text, ':');
      var a, b := text[..i], text[i + 1..];
      Credentials(text) ==
        if AllSpace(a) then (FirstWord(b), FirstWord(AfterWord(b)))
        else (FirstWord(a), if AllSpace(AfterWord(a)) then FirstWord(b) else FirstWord(AfterWord(a)))
  {
    hide FirstWord, AfterWord, IndexOf;
    if ':' in text {
      var i := IndexOf(text, ':');
      var a, b := text[..i], text[i + 1..];
      assert text[i := ' '] == a + ([' '] + b);
      if AllSpace(a) {
        BlankBefore(a + [' '], b);
        assert a + ([' '] + b) == (a + [' ']) + b;
      } else {
        WordBefore(a, [' '] + b);
        if AllSpace(AfterWord(a)) {
          BlankBefore(AfterWord(a) + [' '], b);
          assert AfterWord(a) + ([' '] + b) == (AfterWord(a) + [' ']) + b;
        } else {
          WordBefore(AfterWord(a), [' '] + b);
        }
      }
    }
  }

  lemma BlankBefore(a: string, b: string)
    requires AllSpace(a)
    ensures FirstWord(a + b) == FirstWord(b) && AfterWord(a + b) == AfterWord(b)
  {
    SkipLeading(a, b);
  }

  lemma WordBefore(a: string, b: string)
    requires !AllSpace(a) && b != "" && IsSpace(b[0])
    ensures FirstWord(a + b) == FirstWord(a) && AfterWord(a + b) == AfterWord(a) + b
  {
    hide *;
    var blanks := FirstWordSplits(a);
    var w, rest := FirstWord(a), AfterWord(a);
    WordHasNoSpace(a);
    Regrouped(blanks, w, rest, b);
    WordAfterBlanks(blanks, w, rest + b);
  }

  lemma Regrouped(a: string, b: string, c: string, d: string)
    ensures a + b + c + d == a + b + (c + d)
  {}

  lemma TokenRoundTrip(user: string, password: string)
    requires IsName(user) && IsScanned(password)
    ensures var token := Token(user, password);
      && CStr(token) == token && Decodable(token) && IsClean(token)
      && |token| == (|user| + |password| + 3) / 3 * 4 > 0
      && DecodedCredentials(token) == (user, password)
  {
    hide Encode, Decode, Credentials;
    var text := user + ":" + password;
    var bytes := ToBytes(text);
    EncodeLength(bytes);
    CleanIsCStr(Encode(bytes));
    RoundTrip(bytes);
    assert NUL !in text;
    CStrOfPadded(text, Padding(|bytes|));
    CredentialsOf(user, password);
  }

  lemma {:induction false} FindTextAt(pat: string, prefix: string, rest: string)
    requires pat <= rest
    requires forall i :: 0 <= i < |prefix| ==> !(pat <= (prefix + rest)[i..])
    ensures FindText(prefix + rest, pat) == |prefix|
  {
    if prefix == "" {
      assert prefix + rest == rest;
    } else {
      assert (prefix + rest)[0..] == prefix + rest;
      assert (prefix + rest)[1..] == prefix[1..] + rest;
      forall i | 0 <= i < |prefix[1..]| ensures !(pat <= (prefix[1..] + rest)[i..]) {
        assert (prefix[1..] + rest)[i..] == (prefix + rest)[i + 1..];
      }
      FindTextAt(pat, prefix[1..], rest);
    }
  }

  // A text that has the word after its first occurrence of pat, whatever stands around it.
  ghost predicate Carries(text: string, pat: string, prefix: string, word: string, suffix: string) {
    && text == prefix + pat + word + suffix
    && NUL !in text
    && (suffix == "" || IsSpace(suffix[0]))
    && forall i :: 0 <= i < |prefix| ==> !(pat <= text[i..])
  }

  lemma Slices(text: string, pat: string, prefix: string, word: string, suffix: string)
    requires text == prefix + pat + word + suffix
    ensures text == prefix + (pat + word + suffix)
    ensures pat <= pat + word + suffix
    ensures text[|prefix|..] == pat + word + suffix
    ensures text[|prefix| + |pat|..] == "" + word + suffix
  {
    assert (pat + word + suffix)[..|pat|] == pat;
  }

  lemma WordFollows(text: string, pat: string, prefix: string, word: string, suffix: string)
    requires IsClean(word) && word != ""
    requires Carries(text, pat, prefix, word, suffix)
    ensures |prefix| + |pat| <= |text| && FirstWord(text[|prefix| + |pat|..]) == word
  {
    Slices(text, pat, prefix, word, suffix);
    hide FirstWord, AfterWord;
    WordBetween("", word, suffix);
  }

  lemma PatternFound(text: string, pat: string, prefix: string, word: string, suffix: string)
    requires Carries(text, pat, prefix, word, suffix)
    ensures CStr(text) == text
    ensures FindText(text, pat) == |prefix| <= |text| && pat <= text[|prefix|..]
  {
    assert CStr(text) == text by { assert IndexOf(text, NUL) == |text|; }
    Slices(text, pat, prefix, word, suffix);
    hide FindText, CStr, IndexOf;
    FindTextAt(pat, prefix, pat + word + suffix);
  }

  lemma WordFound(text: string, pat: string, word: string, i: nat)
    requires FindText(text, pat) == i <= |text| && pat <= text[i..]
    requires i + |pat| <= |text| && FirstWord(text[i + |pat|..]) == word
    ensures WordAfter(text, pat) == Some(CutWord(word))
  {
    hide FindText, CutWord, FirstWord;
  }

  lemma WordAfterOf(text: string, pat: string, prefix: string, word: string, suffix: string)
    requires IsClean(word) && word != ""
    requires Carries(text, pat, prefix, word, suffix)
    ensures CStr(text) == text
    ensures WordAfter(text, pat) == Some(CutWord(word))
  {
    hide *;
    PatternFound(text, pat, prefix, word, suffix);
    WordFollows(text, pat, prefix, word, suffix);
    WordFound(text, pat, word, |prefix|);
  }

  // The end-to-end decision for Basic credentials: admitted exactly when an entry of the table has
  // this name and password and its schedule is open now; refused with 403 otherwise.
  lemma CredentialDecision(users: seq<User>, before: string, user: string, password: string,
                           prefix: string, suffix: string, request: string, ip: string, clock: Option<LocalTime>)
    requires UniqueNames(users)
    requires IsUserId(user) && IsField(password)
    requires Carries(request, HEADER, prefix, Token(user, password), suffix)
    ensures Fits(request)
    ensures var d := Decide(true, users, before, request, ip, clock);
      && (d == Admit(user) || d.Forbid?)
      && (d == Admit(user) <==>
            exists i :: 0 <= i < |users| && users[i].name == user && users[i].password == password
              && clock.Some? && PermittedInWeek(users[i].week, clock.value))
  {
    hide Encode, Decode, Credentials, WordAfter, DecodedCredentials, Carries, Token, CStr;
    var token := Token(user, password);
    TokenRoundTrip(user, password);
    WordAfterOf(request, HEADER, prefix, token, suffix);
    var f := FindUser(users, user);
    var e := FindUser(users, "");
    assert e == |users|;
  }

  // A request with credentials fits exactly when user name and password have at most 127 characters.
  lemma FitsExactly(user: string, password: string, prefix: string, suffix: string, request: string)
    requires IsName(user) && IsScanned(password)
    requires Carries(request, HEADER, prefix, Token(user, password), suffix)
    ensures Fits(request) <==> |user| <= 127 && |password| <= 127
  {
    hide WordAfter, DecodedCredentials, Carries, Token, CStr;
    TokenRoundTrip(user, password);
    WordAfterOf(request, HEADER, prefix, Token(user, password), suffix);
  }

  // The Basic credentials header occurs first at i.
  ghost predicate HeaderAt(request: string, i: nat) {
    i <= |request| && "Proxy-Authorization: Basic " <= request[i..] &&
    forall k :: 0 <= k < i ==> !("Proxy-Authorization: Basic " <= request[k..])
  }

  // The token is the word that follows the first header, cut to 1024 characters; "" when only blanks
  // follow it.
  lemma HeaderTokenExactly(request: string, i: nat)
    requires NUL !in request && HeaderAt(request, i)
    ensures i + 27 <= |request|
    ensures var word := FirstWord(request[i + 27..]);
      HeaderToken(request) == Some(if |word| <= 1024 then word else word[..1024])
  {
    hide FindText, FirstWord, CStr;
    assert CStr(request) == request by { CStrWhole(request); }
    var prefix, rest := request[..i], request[i..];
    assert request == prefix + rest;
    assert |HEADER| == 27;
    FindTextAt(HEADER, prefix, rest);
  }

  lemma CStrWhole(s: string)
    requires NUL !in s
    ensures CStr(s) == s
  {
    assert IndexOf(s, NUL) == |s|;
  }

  // A request has no token exactly when the header is nowhere in it.
  lemma HeaderTokenNone(request: string)
    requires NUL !in request
    ensures HeaderToken(request).None? <==>
      forall i :: 0 <= i <= |request| ==> !("Proxy-Authorization: Basic " <= request[i..])
  {
    hide CutWord, FirstWord;
    TextNotFound(request, HEADER);
    assert CStr(request) == request by { assert IndexOf(request, NUL) == |request|; }
  }

  lemma {:induction false} TextNotFound(s: string, pat: string)
    requires pat != ""
    ensures pat <= s[FindText(s, pat)..] <==> exists i :: 0 <= i <= |s| && pat <= s[i..]
  {
    if s == "" || pat <= s {
      assert s[0..] == s;
    } else {
      TextNotFound(s[1..], pat);
      var k := FindText(s[1..], pat);
      assert s[1..][k..] == s[1 + k..];
      forall i | 0 <= i <= |s| && pat <= s[i..] ensures exists j :: 0 <= j <= |s[1..]| && pat <= s[1..][j..] {
        assert s[0..] == s;
        assert s[1..][i - 1..] == s[i..];
      }
    }
  }

  lemma HeaderFirst(token: string)
    requires IsClean(token)
    ensures Carries(HEADER + token, HEADER, "", token, "")
  {
    assert HEADER + token == "" + HEADER + token + "";
    assert NUL !in HEADER;
  }

  // A request well within the 4096 bytes that the detector reads, whose user name does not fit.
  lemma OverlongUser() returns (request: string)
    ensures |request| < 4096 && !Fits(request)
  {
    hide Token, Carries, Fits;
    var user := seq(FIELD_MAX + 1, _ => 'a');
    TokenRoundTrip(user, "");
    HeaderFirst(Token(user, ""));
    request := HEADER + Token(user, "");
    FitsExactly(user, "", "", "", request);
  }

  // With an empty name in the table a name and password that nobody has are admitted.
  lemma EmptyNameAdmits(clock: LocalTime) returns (users: seq<User>, request: string)
    requires clock.Valid()
    ensures Fits(request) && HeaderToken(request).Some?
    ensures forall n :: !Confirmed(users, HeaderToken(request).value, n)
    ensures Decide(true, users, "", request, "", Some(clock)).Admit?
  {
    hide Token, Carries, DecodedCredentials, Decodable, WordAfter, CStr, Fits, Decide, HasCredentials, AccessAllowed;
    users := [User("", "secret", [], AllWeek(), false)];
    NobodyElse("secret", clock);
    request := StrangersRequest("eve", "guess");
    UnconfirmedAdmission(users, "", request, "", Some(clock));
  }

  lemma StrangersRequest(user: string, password: string) returns (request: string)
    requires IsUserId(user) && IsField(password)
    ensures var token := HeaderToken(request);
      Fits(request) && token.Some? && token.value != "" && Decodable(CStr(token.value))
        && DecodedCredentials(token.value).0 == user
  {
    hide Token, Carries, DecodedCredentials, Decodable, WordAfter, CStr, Fits;
    var token := Token(user, password);
    TokenRoundTrip(user, password);
    HeaderFirst(token);
    request := HEADER + token;
    FitsExactly(user, password, "", "", request);
    WordAfterOf(request, HEADER, "", token, "");
  }

  lemma NobodyElse(password: string, clock: LocalTime)
    requires clock.Valid()
    ensures var users := [User("", password, [], AllWeek(), false)];
      (forall n, p :: HasCredentials(users, n, p) ==> n == "") && AccessAllowed(users, "", Some(clock))
  {
    assert MinutesToIntervals(clock.hour, clock.minute) < INTERVALS;
  }

  // ---- Schedules set by name ----

  const DAY_NAMES: seq<string> := ["sun", "mon", "tue", "wed", "thr", "fri", "sat"]

  function DayIndex(day: string): Option<nat> {
    if day == "sun" then Some(0) else if day == "mon" then Some(1) else if day == "tue" then Some(2)
    else if day == "wed" then Some(3) else if day == "thr" then Some(4) else if day == "fri" then Some(5)
    else if day == "sat" then Some(6) else None
  }

  predicate CanSet(users: seq<User>, name: string, day: string, init: string) {
    FindUser(users, name) < |users| && DayIndex(day).Some? && |init| == INTERVALS
  }

  function WithDay(users: seq<User>, name: string, day: string, init: string): seq<User>
    requires CanSet(users, name, day, init)
  {
    var i, d := FindUser(users, name), DayIndex(day).value;
    users[i := users[i].(week := users[i].week[d := FromString(init)])]
  }

  lemma {:induction false} SameNames(a: seq<User>, b: seq<User>, name: string)
    requires |a| == |b| && forall k :: 0 <= k < |a| ==> a[k].name == b[k].name
    ensures FindUser(a, name) == FindUser(b, name)
  {
    if a != [] {
      SameNames(a[1..], b[1..], name);
    }
  }

  // The names of the days, in the order of a broken-down time.
  lemma DayNames(i: nat)
    requires i < 7
    ensures DAY_NAMES == ["sun", "mon", "tue", "wed", "thr", "fri", "sat"] && DayIndex(DAY_NAMES[i]) == Some(i)
  {}

  // Setting one day opens and closes exactly that user's half hours of that day.
  lemma ScheduleSet(users: seq<User>, name: string, day: string, init: string, who: string, t: LocalTime)
    requires UniqueNames(users) && CanSet(users, name, day, init) && t.Valid()
    ensures var d := DayIndex(day).value;
      d < |DAY_NAMES| && DAY_NAMES[d] == day &&
      (AccessAllowed(WithDay(users, name, day, init), who, Some(t)) <==>
        if who == name && t.wday == d
        then var i := 2 * t.hour + t.minute / 30; i < |init| && init[i] != 'x' && init[i] != 'X'
        else AccessAllowed(users, who, Some(t)))
  {
    var i, d := FindUser(users, name), DayIndex(day).value;
    var after := WithDay(users, name, day, init);
    PermittedByCharacter(init, t);
    SameNames(users, after, who);
  }

  function PlusIp(u: User, name: string, ip: string): User {
    if u.name == name then u.(ips := u.ips + [ip]) else u
  }

  function Audited(u: User, name: string, audit: bool): User {
    if u.name == name then u.(audit := audit) else u
  }

  // The setting of the first user of that name.
  predicate AuditEnabled(users: seq<User>, name: string) {
    var i := FindUser(users, name);
    i < |users| && users[i].audit
  }

  // One conversion of sscanf("%s") into a field: the word and its NUL stay inside the field exactly
  // when the word is shorter than it. Where they do not, this stops at the edge.
  method ScanField(field: array<char>, text: string) returns (stays: bool)
    requires NUL !in text
    modifies field
    ensures stays <==> |FirstWord(text)| < field.Length
    ensures stays ==> CStr(field[..]) == FirstWord(text)
  {
    WordHasNoNul(text);
    hide FirstWord, CStr;
    var w := FirstWord(text);
    var i := 0;
    while i < |w| && i < field.Length
      invariant i <= |w| && i <= field.Length && field[..i] == w[..i]
    {
      field[i] := w[i];
      i := i + 1;
    }
    stays := i < field.Length;
    if stays {
      field[i] := NUL;
      assert w[..i] == w;
      FieldHolds(field[..], w);
    }
  }

  // Decoded bytes read as characters.
  method Text(buf: array<byte>, size: nat) returns (text: string)
    requires size <= buf.Length
    ensures text == ToText(buf[..size])
  {
    text := seq(size, i requires 0 <= i < size <= buf.Length reads buf => buf[i] as char);
  }

  // The two conversions of Authenticate, into its fields of 128 characters.
  method ScanCredentials(text: string) returns (u: string, p: string)
    requires NUL !in text
    requires |Credentials(text).0| <= FIELD_MAX && |Credentials(text).1| <= FIELD_MAX
    ensures (u, p) == Credentials(text)
  {
    hide FirstWord, AfterWord, CStr, IndexOf;
    var (words, rest) := Spaced(text);
    var user, pass := new char[FIELD_MAX + 1], new char[FIELD_MAX + 1];
    var userStays := ScanField(user, words);
    var passStays := ScanField(pass, rest);
    assert userStays && passStays;
    return CStr(user[..]), CStr(pass[..]);
  }

  lemma WordHasNoNul(text: string)
    requires NUL !in text
    ensures NUL !in FirstWord(text)
  {}

  lemma FieldHolds(field: string, w: string)
    requires NUL !in w && |w| < |field| && field[..|w|] == w && field[|w|] == NUL
    ensures CStr(field) == w
  {
    assert field == w + [NUL] + field[|w| + 1..];
    IndexOfSplit(w, NUL, field[|w| + 1..]);
  }

  class AuthManager {
    var users: seq<User>
    var enabled: bool

    constructor ()
      ensures users == [] && !enabled
    {
      users, enabled := [], false;
    }

    method AddUser(name: string, password: string)
      modifies this`users
      ensures users == old(users) + [User(name, password, [], AllWeek(), false)]
    {
      users := users + [User(name, password, [], AllWeek(), false)];
    }

    method AddUserIp(name: string, ip: string)
      modifies this`users
      ensures |users| == |old(users)|
      ensures forall k :: 0 <= k < |users| ==> users[k] == PlusIp(old(users)[k], name, ip)
    {
      for i := 0 to |users|
        invariant |users| == |old(users)|
        invariant forall k :: 0 <= k < i ==> users[k] == PlusIp(old(users)[k], name, ip)
        invariant forall k :: i <= k < |users| ==> users[k] == old(users)[k]
      {
        if users[i].name == name {
          users := users[i := users[i].(ips := users[i].ips + [ip])];
        }
      }
    }

    method IsAuditEnabled(name: string) returns (on: bool)
      ensures on <==> AuditEnabled(users, name)
    {
      for i := 0 to |users|
        invariant forall k :: 0 <= k < i ==> users[k].name != name
      {
        if users[i].name == name {
          assert FindUser(users, name) == i;
          return users[i].audit;
        }
      }
      return false;
    }

    method SetAudit(name: string, audit: bool)
      modifies this`users
      ensures |users| == |old(users)|
      ensures forall k :: 0 <= k < |users| ==> users[k] == Audited(old(users)[k], name, audit)
    {
      for i := 0 to |users|
        invariant |users| == |old(users)|
        invariant forall k :: 0 <= k < i ==> users[k] == Audited(old(users)[k], name, audit)
        invariant forall k :: i <= k < |users| ==> users[k] == old(users)[k]
      {
        if users[i].name == name {
          users := users[i := users[i].(audit := audit)];
        }
      }
    }

    // Only the first user of that name is changed; an unknown day or a string of another length
    // changes nothing.
    method SetWeeklyAccess(name: string, day: string, init: string) returns (ok: bool)
      modifies this`users
      ensures ok <==> CanSet(old(users), name, day, init)
      ensures users == if ok then WithDay(old(users), name, day, init) else old(users)
    {
      for i := 0 to |users|
        invariant users == old(users)
        invariant forall k :: 0 <= k < i ==> users[k].name != name
      {
        if users[i].name == name {
          assert FindUser(users, name) == i;
          var d := DayIndex(day);
          if d.None? {
            return false;
          }
          var intervals := new TimeMap();
          ok := intervals.InitFromString(init);
          if ok {
            users := users[i := users[i].(week := users[i].week[d.value := intervals.accessIntervals[..]])];
          }
          return;
        }
      }
      return false;
    }

    method AuthenticateIp(ip: string) returns (ok: bool, name: string)
      ensures ok <==> IpUser(users, ip).Some?
      ensures ok ==> IpUser(users, ip) == Some(name)
    {
      for i := 0 to |users|
        invariant forall k :: 0 <= k < i ==> ip !in users[k].ips
      {
        var ips := users[i].ips;
        for j := 0 to |ips|
          invariant ip !in ips[..j]
        {
          if ips[j] == ip {
            assert FindIp(users, ip) == i;
            return true, users[i].name;
          }
        }
        assert ips[..|ips|] == ips;
      }
      return false, "";
    }

    method CheckCredentials(name: string, password: string) returns (ok: bool)
      ensures ok <==> HasCredentials(users, name, password)
    {
      for i := 0 to |users|
        invariant forall k :: 0 <= k < i ==> !(users[k].name == name && users[k].password == password)
      {
        if users[i].name == name && users[i].password == password {
          return true;
        }
      }
      return false;
    }

    method AccessAllowedAtTime(name: string, clock: Option<LocalTime>) returns (ok: bool)
      requires clock.Some? ==> clock.value.Valid()
      ensures ok <==> AccessAllowed(users, name, clock)
    {
      for i := 0 to |users|
        invariant forall k :: 0 <= k < i ==> users[k].name != name || clock.None?
      {
        if users[i].name == name {
          if clock.Some? {
            assert FindUser(users, name) == i;
            var t := clock.value;
            var day := new TimeMap.Of(users[i].week[t.wday]);
            ok := day.PermittedAtTime(t.hour, t.minute);
            return;
          }
        }
      }
      return false;
    }

    // Authenticate over the in-place decoder and the fields on the stack.
    method AuthenticateToken(token: string) returns (ok: bool, name: string)
      requires TokenFits(token)
      ensures (ok, name) == Authenticate(users, token)
    {
      hide Decode, Credentials, Decodable, CStr, HasCredentials, ToText;
      var decoded, buf, size := Base64Decode(token);
      if !decoded {
        return false, "";
      }
      var text := Text(buf, size);
      var u, p := ScanCredentials(CStr(text));
      var found := CheckCredentials(u, p);
      return true, if found then u else "";
    }

    // The authentication branch of HandleCommandSocketRead.
    method Decision(user: string, request: string, ip: string, clock: Option<LocalTime>) returns (d: Decision)
      requires enabled ==> Fits(request)
      requires clock.Some? ==> clock.value.Valid()
      ensures d == Decide(enabled, users, user, request, ip, clock)
    {
      if !enabled {
        return Admit(user);
      }
      var token := HeaderToken(request);
      if token.Some? {
        if token.value == "" {
          return Forbid(user);
        }
        var ok, name := AuthenticateToken(token.value);
        if !ok {
          return Forbid(user);
        }
        var open := AccessAllowedAtTime(name, clock);
        return if open then Admit(name) else Forbid(name);
      }
      var listed, name := AuthenticateIp(ip);
      if !listed {
        return Challenge(user);
      }
      var open := AccessAllowedAtTime(name, clock);
      return if open then Admit(name) else Forbid(user);
    }
  }
}
