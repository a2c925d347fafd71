/**
 Who a request stands as, and what that lets it do: `signers.rs`, `auth.rs` and `rbac.rs`.

 `Packing` is the sentinel-delimited set of scopes. `Directory` is the signed door and the bearer door
 over one shared cache of standings, and the context and permissions each ends in.
 */
module Packing {
  import opened Options
  import opened Text

  predicate Word(w: string)
  {
    w != "" && forall i :: 0 <= i < |w| ==> !Space(w[i])
  }

  /** `split_whitespace`, with the word being read. */
  function Split(s: string, word: string): seq<string>
  {
    var read := if |word| == 0 then [] else [word];
    if |s| == 0 then read
    else if Space(s[0]) then read + Split(s[1..], [])
    else Split(s[1..], word + [s[0]])
  }

  function Unpack(packed: string): seq<string> { Split(packed, []) }

  /** One separator in front, one after every value; an empty value or one holding it is refused. */
  function Pack(values: seq<string>): Option<string>
  {
    if |values| == 0 then Some(" ")
    else
      var value := values[|values| - 1];
      match Pack(values[..|values| - 1])
      case None => None
      case Some(packed) => if value == "" || ' ' in value then None else Some(packed + value + " ")
  }

  predicate Contains(packed: string, value: string)
  {
    value != "" && value in Unpack(packed)
  }

  lemma {:induction false} SplitGivesWords(s: string, word: string)
    requires word == "" || Word(word)
    ensures forall i :: 0 <= i < |Split(s, word)| ==> Word(Split(s, word)[i])
    decreases |s|
  {
    if |s| > 0 { SplitGivesWords(s[1..], if Space(s[0]) then [] else word + [s[0]]); }
  }

  /** Words already read are kept: a split at a separator is a split of each side. */
  lemma {:induction false} SplitAtSpace(s: string, t: string, word: string)
    ensures Split(s + " " + t, word) == Split(s, word) + Split(t, [])
    decreases |s|
  {
    var whole := s + " " + t;
    if |s| == 0 {
      assert whole[0] == ' ' && whole[1..] == t;
    } else {
      assert whole[0] == s[0] && whole[1..] == s[1..] + " " + t;
      var next := if Space(s[0]) then [] else word + [s[0]];
      SplitAtSpace(s[1..], t, next);
    }
  }

  lemma {:induction false} SplitWord(w: string, word: string)
    requires forall i :: 0 <= i < |w| ==> !Space(w[i])
    ensures Split(w, word) == if |word + w| == 0 then [] else [word + w]
    decreases |w|
  {
    if |w| > 0 {
      SplitWord(w[1..], word + [w[0]]);
      assert word + [w[0]] + w[1..] == word + w;
    } else {
      assert word + w == word;
    }
  }

  lemma {:induction false} PackedWords(values: seq<string>)
    requires forall i :: 0 <= i < |values| ==> Word(values[i])
    ensures Pack(values).Some? && Unpack(Pack(values).value) == values
    ensures Pack(values).value != "" && Pack(values).value[|Pack(values).value| - 1] == ' '
  {
    if |values| == 0 {
      assert Split(" ", []) == [] + Split(" "[1..], []);
    } else {
      var front, value := values[..|values| - 1], values[|values| - 1];
      PackedWords(front);
      var packed := Pack(front).value;
      var body := packed[..|packed| - 1];
      assert packed == body + " " + [];
      assert packed + value + " " == body + " " + (value + " ");
      SplitAtSpace(body, [], []);
      SplitAtSpace(body, value + " ", []);
      assert value + " " == value + " " + [];
      SplitAtSpace(value, [], []);
      SplitWord(value, []);
      assert [] + value == value;
    }
  }

  /** What was packed comes back, in order and with repeats, exactly when no value holds white space.
      A tab or a no-break space gets past `pack`, which refuses only the separator, and splits. */
  lemma UnpackUndoesPack(values: seq<string>)
    requires Pack(values).Some?
    ensures Unpack(Pack(values).value) == values <==> forall i :: 0 <= i < |values| ==> Word(values[i])
  {
    SplitGivesWords(Pack(values).value, []);
    if forall i :: 0 <= i < |values| ==> Word(values[i]) { PackedWords(values); }
  }

  /** One value with a tab in it goes in and two come out. */
  lemma TabSplits()
    ensures Pack(["a\tb"]) == Some(" a\tb ") && Unpack(" a\tb ") == ["a", "b"]
  {
    assert ["a\tb"][..0] == [] && " " + "a\tb" + " " == " a\tb ";
    var s := " a\tb ";
    assert s[1..][1..] == "\tb " && s[1..] == "a\tb ";
    assert "\tb "[1..] == "b " && "b "[1..] == " " && " "[1..] == "";
    assert Split(" ", "b") == ["b"] + Split("", []);
    assert Split("b ", []) == Split(" ", [] + ['b']) && [] + ['b'] == "b";
    assert Split("\tb ", "a") == ["a"] + Split("b ", []);
    assert Split("a\tb ", []) == Split("\tb ", [] + ['a']) && [] + ['a'] == "a";
  }
}

module Directory {
  import opened Options
  import opened Packing
  import opened TtlCaches
  import opened CacheRace

  // ----- rows -----

  datatype AppClient = AppClient(clientId: string, appId: string, scopes: string, active: bool, retired: bool)
  datatype Person = Person(roleKey: string, active: bool)
  datatype OauthClient = OauthClient(active: bool, isPublic: bool, appClientId: Option<string>, scopes: string)
  datatype ClientKey = ClientKey(appClientId: string, revoked: bool)
  datatype ConsoleKey = ConsoleKey(userId: string, revoked: bool, expiresAt: int)

  /** Rows by id, roles' packed permissions by key, clients by `clientId`, keys by thumbprint. */
  datatype Tables = Tables(apps: map<string, AppClient>, users: map<string, Person>, roles: map<string, string>,
                           oauth: map<string, OauthClient>, clientKeys: map<string, ClientKey>,
                           consoleKeys: map<string, ConsoleKey>)

  datatype AppStanding = AppStanding(clientId: string, appId: string, scopes: string)
  datatype UserStanding = UserStanding(userId: string, role: string, perms: seq<string>)
  datatype Standing = App(app: AppStanding) | User(user: UserStanding)

  const STANDING_TTL: nat := 60_000_000

  predicate Reserved(role: string) { role == "system" || role == "app" }
  predicate DeviceOnly(role: string) { role == "owner" || role == "admin" }

  function LoadApp(db: Tables, id: string): Option<AppStanding>
  {
    if id in db.apps && db.apps[id].active && !db.apps[id].retired
    then Some(AppStanding(db.apps[id].clientId, db.apps[id].appId, db.apps[id].scopes))
    else None
  }

  /** Two reads: the person's row, and later the row of the role it named. */
  function LoadUser(first: Tables, second: Tables, id: string): Option<UserStanding>
  {
    if id !in first.users || !first.users[id].active then None
    else
      var role := first.users[id].roleKey;
      if role !in second.roles || Reserved(role) then None
      else Some(UserStanding(id, role, Unpack(second.roles[role])))
  }

  // ----- the shared cache of owners -----

  datatype Owner = AppOf(id: string) | UserOf(id: string)

  function Load(owner: Owner, seen: seq<Tables>): Option<Standing>
  {
    match owner
    case AppOf(id) =>
      if |seen| == 1 then (match LoadApp(seen[0], id) case Some(a) => Some(App(a)) case None => None) else None
    case UserOf(id) =>
      if |seen| == 2 then (match LoadUser(seen[0], seen[1], id) case Some(u) => Some(User(u)) case None => None)
      else None
  }

  function Cache(longest: nat): Loader<Tables, Owner, Standing>
  {
    Loader(STANDING_TTL, longest, (owner: Owner) => if owner.AppOf? then 1 else 2, Load)
  }

  type Run = seq<Event<Tables, Owner>>
  type World = State<Tables, Owner, Standing>

  /** What a run's call for this owner came back with. */
  ghost predicate CameBack(longest: nat, s: World, es: Run, c: nat, owner: Owner, found: Standing)
  {
    && Start(s)
    && var t := Exec(Cache(longest), s, es);
       c in t.calls && t.calls[c].Done? && t.calls[c].key == owner && t.calls[c].result == Some(found)
  }

  // ----- the doors -----

  datatype Answer = Stands(standing: Standing) | Unauthorized | Forbidden

  datatype Alg = Ed25519 | Esp256 | OtherAlg

  /** Whose key signed: the algorithm decides which table is asked. The row is read on every request. */
  function KeyOwner(db: Tables, alg: Alg, thumbprint: string, now: int): Option<Owner>
  {
    match alg
    case Ed25519 =>
      if thumbprint in db.clientKeys && !db.clientKeys[thumbprint].revoked
      then Some(AppOf(db.clientKeys[thumbprint].appClientId)) else None
    case Esp256 =>
      if thumbprint in db.consoleKeys && !db.consoleKeys[thumbprint].revoked
        && db.consoleKeys[thumbprint].expiresAt > now
      then Some(UserOf(db.consoleKeys[thumbprint].userId)) else None
    case OtherAlg => None
  }

  function SignedAnswer(found: Option<Standing>): Answer
  {
    match found
    case Some(standing) => Stands(standing)
    case None => Unauthorized
  }

  function LiveOauthClient(db: Tables, clientId: string): Option<OauthClient>
  {
    if clientId in db.oauth && db.oauth[clientId].active then Some(db.oauth[clientId]) else None
  }

  function Lower(c: char): char
  {
    if 'A' <= c <= 'Z' then (c as int + 32) as char else c
  }

  /** `eq_ignore_ascii_case`. */
  predicate SameIgnoringCase(a: string, b: string)
  {
    |a| == |b| && forall i :: 0 <= i < |a| ==> Lower(a[i]) == Lower(b[i])
  }

  const PAIR_SCOPE := "console:pair"

  predicate NamesPairScope(scopes: string)
  {
    exists i :: 0 <= i < |Unpack(scopes)| && SameIgnoringCase(Unpack(scopes)[i], PAIR_SCOPE)
  }

  predicate Kept(scope: string, registered: string, claimed: Option<string>)
  {
    && !NamesPairScope(scope) && scope in Unpack(registered)
    && (claimed.Some? ==> scope in Unpack(claimed.value))
  }

  function Filter(scopes: seq<string>, registered: string, claimed: Option<string>): seq<string>
  {
    if |scopes| == 0 then []
    else
      var front := Filter(scopes[..|scopes| - 1], registered, claimed);
      if Kept(scopes[|scopes| - 1], registered, claimed) then front + [scopes[|scopes| - 1]] else front
  }

  function EffectiveScopes(granted: string, registered: string, claimed: Option<string>): string
  {
    match Pack(Filter(Unpack(granted), registered, claimed))
    case Some(packed) => packed
    case None => ""
  }

  /** `machine_standing`: which owner to ask for, then what to make of the answer. */
  function MachineOwner(db: Tables, clientId: string): Option<Owner>
  {
    match LiveOauthClient(db, clientId)
    case None => None
    case Some(client) => if client.appClientId.None? then None else Some(AppOf(client.appClientId.value))
  }

  function MachineAnswer(clientId: string, registered: string, claimed: Option<string>, found: Option<Standing>): Answer
  {
    match found
    case Some(App(app)) =>
      if app.clientId != clientId then Unauthorized
      else Stands(App(app.(scopes := EffectiveScopes(app.scopes, registered, claimed))))
    case _ => Unauthorized
  }

  /** `person_standing`: the console the sign-in ran through, then the person. */
  function PersonOwner(db: Tables, userId: string, clientId: string): Option<Owner>
  {
    match LiveOauthClient(db, clientId)
    case None => None
    case Some(console) => if console.appClientId.Some? || !console.isPublic then None else Some(UserOf(userId))
  }

  /** The role is refused after the cache read: a key of the same person may have cached it. */
  function PersonAnswer(found: Option<Standing>): Answer
  {
    match found
    case Some(User(person)) => if DeviceOnly(person.role) then Forbidden else Stands(User(person))
    case _ => Unauthorized
  }

  // `look` is what the cache gives back for an owner. The rows are read on every request.

  function SignedDoor(db: Tables, alg: Alg, thumbprint: string, now: int, look: Owner -> Option<Standing>): Answer
  {
    match KeyOwner(db, alg, thumbprint, now)
    case None => Unauthorized
    case Some(owner) => SignedAnswer(look(owner))
  }

  function MachineDoor(db: Tables, clientId: string, claimed: Option<string>, look: Owner -> Option<Standing>): Answer
  {
    match MachineOwner(db, clientId)
    case None => Unauthorized
    case Some(owner) => MachineAnswer(clientId, db.oauth[clientId].scopes, claimed, look(owner))
  }

  function PersonDoor(db: Tables, userId: string, clientId: string, look: Owner -> Option<Standing>): Answer
  {
    match PersonOwner(db, userId, clientId)
    case None => Unauthorized
    case Some(owner) => PersonAnswer(look(owner))
  }

  // ----- the context and its permissions -----

  datatype Kind = UserKind | AppKind
  datatype Context = Context(sub: string, kind: Kind, role: string, appId: string, messageRead: bool, optOutRead: bool,
                             perms: seq<string>, scope: Option<string>)

  predicate Holds(perms: seq<string>, scope: Option<string>, permission: string)
  {
    permission in perms || (scope.Some? && Contains(scope.value, permission))
  }

  predicate RequirePermission(ctx: Context, required: string)
  {
    Holds(ctx.perms, ctx.scope, required)
  }

  function ContextOf(sub: string, kind: Kind, role: string, appId: string, perms: seq<string>,
                     scope: Option<string>): Context
  {
    Context(sub, kind, role, appId, Holds(perms, scope, "sms:read"),
            Holds(perms, scope, "optout:read") || Holds(perms, None, "optout:manage"), perms, scope)
  }

  function ContextFor(standing: Standing): Context
  {
    match standing
    case App(app) => ContextOf(app.clientId, AppKind, "app", app.appId, [], Some(app.scopes))
    case User(person) => ContextOf(person.userId, UserKind, person.role, "", person.perms, None)
  }

  function Principal(standing: Standing): string
  {
    match standing
    case App(app) => "client:" + app.clientId
    case User(person) => "user:" + person.userId
  }

  /** What a request is charged to tells everybody apart. */
  lemma PrincipalsAreTold(a: Standing, b: Standing)
    ensures Principal(a) == Principal(b) <==>
            || (a.App? && b.App? && a.app.clientId == b.app.clientId)
            || (a.User? && b.User? && a.user.userId == b.user.userId)
  {
    assert Principal(a)[0] == (if a.App? then 'c' else 'u') && Principal(b)[0] == if b.App? then 'c' else 'u';
    if a.App? && b.App? {
      assert Principal(a)[7..] == a.app.clientId && Principal(b)[7..] == b.app.clientId;
    }
    if a.User? && b.User? {
      assert Principal(a)[5..] == a.user.userId && Principal(b)[5..] == b.user.userId;
    }
  }

  datatype Admission = Admitted(ctx: Context) | Refused

  /** `authenticate`: what each door recorded for the request, and the header beside it. */
  function Authenticate(signed: Option<Answer>, bearer: Option<Standing>, authorization: bool): Admission
  {
    match (signed, bearer)
    case (Some(_), Some(_)) => Refused
    case (Some(answer), None) =>
      if authorization || !answer.Stands? then Refused else Admitted(ContextFor(answer.standing))
    case (None, Some(standing)) =>
      if standing.User? && DeviceOnly(standing.user.role) then Refused else Admitted(ContextFor(standing))
    case (None, None) => Refused
  }

  // ----- scopes -----

  lemma {:induction false} FilterIsExact(scopes: seq<string>, registered: string, claimed: Option<string>,
                                         scope: string)
    ensures scope in Filter(scopes, registered, claimed) <==> scope in scopes && Kept(scope, registered, claimed)
  {
    if |scopes| > 0 {
      FilterIsExact(scopes[..|scopes| - 1], registered, claimed, scope);
      assert scopes == scopes[..|scopes| - 1] + [scopes[|scopes| - 1]];
    }
  }

  /** A token acts with exactly the scopes both rows list and its claim, if it has one, names; the
      pairing scope, in any spelling, is never one of them. */
  lemma EffectiveScopesAreExact(granted: string, registered: string, claimed: Option<string>, scope: string)
    ensures scope in Unpack(EffectiveScopes(granted, registered, claimed)) <==>
            scope in Unpack(granted) && Kept(scope, registered, claimed)
    ensures scope in Unpack(EffectiveScopes(granted, registered, claimed)) <==>
            && scope in Unpack(granted) && scope in Unpack(registered)
            && (claimed.Some? ==> scope in Unpack(claimed.value)) && !SpellsPair(scope)
  {
    if scope in Unpack(granted) {
      SplitGivesWords(granted, []);
      PairInAnySpelling(scope);
    }
    var kept := Filter(Unpack(granted), registered, claimed);
    SplitGivesWords(granted, []);
    forall i | 0 <= i < |kept| ensures Word(kept[i]) { FilterIsExact(Unpack(granted), registered, claimed, kept[i]); }
    PackedWords(kept);
    FilterIsExact(Unpack(granted), registered, claimed, scope);
  }

  lemma WordNamesItself(scope: string)
    requires Word(scope)
    ensures NamesPairScope(scope) <==> SameIgnoringCase(scope, PAIR_SCOPE)
  {
    SplitWord(scope, []);
    assert [] + scope == scope;
    assert Unpack(scope) == [scope];
    assert SameIgnoringCase(scope, PAIR_SCOPE) ==> SameIgnoringCase(Unpack(scope)[0], PAIR_SCOPE);
  }

  /** The pairing scope, letter by letter, in either case. */
  predicate SpellsPair(scope: string)
  {
    |scope| == 12 && forall i :: 0 <= i < 12 ==> scope[i] == "console:pair"[i] || scope[i] == "CONSOLE:PAIR"[i]
  }

  lemma PairInAnySpelling(scope: string)
    requires Word(scope)
    ensures NamesPairScope(scope) <==> SpellsPair(scope)
  {
    WordNamesItself(scope);
    if |scope| == 12 {
      forall i | 0 <= i < 12
        ensures Lower(scope[i]) == Lower(PAIR_SCOPE[i]) <==>
                scope[i] == "console:pair"[i] || scope[i] == "CONSOLE:PAIR"[i]
      {
        LetterByLetter(scope[i], i);
      }
    }
  }

  lemma LetterByLetter(c: char, i: nat)
    requires i < 12
    ensures Lower(c) == Lower(PAIR_SCOPE[i]) <==> c == "console:pair"[i] || c == "CONSOLE:PAIR"[i]
  {
  }

  /** One standing at both doors: exactly the permissions that the client's own row and the claim also
      list, less the pairing scope. */
  lemma NarrowedStanding(app: AppStanding, registered: string, claimed: Option<string>, required: string)
    ensures var narrowed := App(app.(scopes := EffectiveScopes(app.scopes, registered, claimed)));
            var (token, key) := (ContextFor(narrowed), ContextFor(App(app)));
            && token.(messageRead := key.messageRead, optOutRead := key.optOutRead, scope := key.scope) == key
            && (token.messageRead ==> key.messageRead) && (token.optOutRead ==> key.optOutRead)
            && (RequirePermission(token, required) <==>
                RequirePermission(key, required) && Kept(required, registered, claimed))
            && !NamesPairScope(token.scope.value)
            && (forall i :: 0 <= i < |Unpack(token.scope.value)| ==> !SpellsPair(Unpack(token.scope.value)[i]))
  {
    var scopes := EffectiveScopes(app.scopes, registered, claimed);
    EffectiveScopesAreExact(app.scopes, registered, claimed, required);
    EffectiveScopesAreExact(app.scopes, registered, claimed, "sms:read");
    EffectiveScopesAreExact(app.scopes, registered, claimed, "optout:read");
    SplitGivesWords(scopes, []);
    forall i | 0 <= i < |Unpack(scopes)| ensures !SameIgnoringCase(Unpack(scopes)[i], PAIR_SCOPE) {
      EffectiveScopesAreExact(app.scopes, registered, claimed, Unpack(scopes)[i]);
      WordNamesItself(Unpack(scopes)[i]);
    }
    forall i | 0 <= i < |Unpack(scopes)| ensures !SpellsPair(Unpack(scopes)[i]) {
      EffectiveScopesAreExact(app.scopes, registered, claimed, Unpack(scopes)[i]);
      PairInAnySpelling(Unpack(scopes)[i]);
    }
  }

  /** The bearer door against the signed door, for a client with a key: when the token stands, the key
      stands too, under the same principal name, subject, role and app; whatever the token is granted the
      key is granted, and exactly what the row and the claim keep of it; the pairing scope, never. */
  lemma BearerGrantsNoMore(db: Tables, clientId: string, claimed: Option<string>, thumbprint: string, now: int,
                           look: Owner -> Option<Standing>, required: string)
    requires MachineDoor(db, clientId, claimed, look).Stands?
    requires KeyOwner(db, Ed25519, thumbprint, now) == MachineOwner(db, clientId)
    ensures var k := SignedDoor(db, Ed25519, thumbprint, now, look);
            && k.Stands?
            && var b := MachineDoor(db, clientId, claimed, look).standing;
               && Principal(b) == Principal(k.standing) == "client:" + clientId
               && var (token, key) := (ContextFor(b), ContextFor(k.standing));
                  && (token.sub, token.kind, token.role, token.appId, token.perms) ==
                    (key.sub, key.kind, key.role, key.appId, key.perms)
                  && (token.messageRead ==> key.messageRead) && (token.optOutRead ==> key.optOutRead)
                  && (RequirePermission(token, required) <==>
                      RequirePermission(key, required) && Kept(required, db.oauth[clientId].scopes, claimed))
                  && token.scope.Some? && !NamesPairScope(token.scope.value)
  {
    var app := look(MachineOwner(db, clientId).value).value.app;
    NarrowedStanding(app, db.oauth[clientId].scopes, claimed, required);
  }

  // ----- every run of the shared cache -----

  /** A person's standing is their row as it stood less than one time to live and one fetch ago, and the
      permissions of that role as they stood then or later; the two rows may be from different times. */
  lemma PersonIsRecent(longest: nat, s: World, es: Run, c: nat, id: string, found: Standing) returns (i: nat, j: nat)
    requires CameBack(longest, s, es, c, UserOf(id), found)
    ensures var t := Exec(Cache(longest), s, es);
            && i <= j < |t.past| && t.past[i].now >= t.calls[c].at - (STANDING_TTL - 1 + longest)
            && id in t.past[i].source.users && t.past[i].source.users[id].active
            && var role := t.past[i].source.users[id].roleKey;
               && !Reserved(role) && role in t.past[j].source.roles
               && found == User(UserStanding(id, role, Unpack(t.past[j].source.roles[role])))
  {
    ReturnedIsRecent(Cache(longest), s, es, c);
    i, j := PersonWasHeld(longest, Exec(Cache(longest), s, es), id, found,
                          Exec(Cache(longest), s, es).calls[c].at - (STANDING_TTL - 1 + longest));
  }

  lemma PersonWasHeld(longest: nat, t: World, id: string, found: Standing, from: int) returns (i: nat, j: nat)
    requires HeldSince(Cache(longest), t, UserOf(id), found, from)
    ensures i <= j < |t.past| && t.past[i].now >= from
    ensures LoadUser(t.past[i].source, t.past[j].source, id).Some?
            && found == User(LoadUser(t.past[i].source, t.past[j].source, id).value)
  {
    var views :| ReadSince(t, views, from) && |views| == 2 && Load(UserOf(id), Observed(t.past, views)) == Some(found);
    i, j := views[0], views[1];
    assert Observed(t.past, views)[0] == t.past[i].source && Observed(t.past, views)[1] == t.past[j].source;
  }

  // ----- one moment or two -----

  /** The standing the rows of one moment give. */
  ghost predicate StoodAt(db: Tables, id: string, found: Standing)
  {
    found.User? && LoadUser(db, db, id) == Some(found.user)
  }

  /** Two reads give the standing of one of their moments exactly when the person still holds that role,
      active, at the second, or the role's permissions are the same at both. */
  lemma OneMomentExactly(first: Tables, second: Tables, id: string)
    requires LoadUser(first, second, id).Some?
    ensures var (found, role) := (User(LoadUser(first, second, id).value), first.users[id].roleKey);
            StoodAt(first, id, found) || StoodAt(second, id, found) <==>
            || (id in second.users && second.users[id].active && second.users[id].roleKey == role)
            || (role in first.roles && Unpack(first.roles[role]) == Unpack(second.roles[role]))
  {
  }

  /** The same for whatever a run comes back with: there are two moments of the run, one after the other and
      less than one time to live and one fetch ago, whose rows make up the standing, and this says of them
      when one alone would have. */
  lemma PersonIsOfOneMomentExactly(longest: nat, s: World, es: Run, c: nat, id: string, found: Standing)
    returns (i: nat, j: nat)
    requires CameBack(longest, s, es, c, UserOf(id), found)
    ensures var t := Exec(Cache(longest), s, es);
            var past := t.past;
            && i <= j < |past| && past[i].now >= t.calls[c].at - (STANDING_TTL - 1 + longest)
            && LoadUser(past[i].source, past[j].source, id).Some?
            && found == User(LoadUser(past[i].source, past[j].source, id).value)
            && var (a, b, role) := (past[i].source, past[j].source, found.user.role);
               StoodAt(a, id, found) || StoodAt(b, id, found) <==>
               || (id in b.users && b.users[id].active && b.users[id].roleKey == role)
               || (role in a.roles && Unpack(a.roles[role]) == Unpack(b.roles[role]))
  {
    ReturnedIsRecent(Cache(longest), s, es, c);
    var t := Exec(Cache(longest), s, es);
    i, j := PersonWasHeld(longest, t, id, found, t.calls[c].at - (STANDING_TTL - 1 + longest));
    OneMomentExactly(t.past[i].source, t.past[j].source, id);
  }

  /** Somebody moved off a role in the same change that gave the role a permission. */
  function Before(): Tables
  {
    Tables(map[], map["u" := Person("r", true)], map["r" := "", "q" := ""], map[], map[], map[])
  }

  function After(): Tables
  {
    Tables(map[], map["u" := Person("q", true)], map["r" := "p", "q" := ""], map[], map[], map[])
  }

  lemma TornLoad()
    ensures Unpack("p") == ["p"] && LoadUser(Before(), After(), "u") == Some(UserStanding("u", "r", ["p"]))
    ensures !StoodAt(Before(), "u", User(UserStanding("u", "r", ["p"])))
            && !StoodAt(After(), "u", User(UserStanding("u", "r", ["p"])))
  {
    SplitWord("p", []);
    assert [] + "p" == "p";
  }

  lemma BeginsAndReads(longest: nat, a: Tables, s: World)
    requires s == State([Moment(0, a)], map[], map[])
    ensures Apply(Cache(longest), Apply(Cache(longest), s, Begin(0, UserOf("u"))), Read(0)) ==
            State([Moment(0, a)], map[], map[0 := Fetching(UserOf("u"), 0, [0])])
  {
    var begun := Apply(Cache(longest), s, Begin(0, UserOf("u")));
    assert begun == State([Moment(0, a)], map[], map[0 := Fetching(UserOf("u"), 0, [])]);
    var none: seq<nat> := [];
    assert none + [0] == [0];
  }

  lemma ReadsOnce(longest: nat, a: Tables, s: World) returns (es: Run)
    requires s == State([Moment(0, a)], map[], map[])
    ensures Exec(Cache(longest), s, es) == State([Moment(0, a)], map[], map[0 := Fetching(UserOf("u"), 0, [0])])
  {
    es := Two(Cache(longest), s, [], Begin(0, UserOf("u")), Read(0));
    BeginsAndReads(longest, a, s);
  }

  lemma ReadsBoth(longest: nat, a: Tables, b: Tables, s: World) returns (es: Run)
    requires s == State([Moment(0, a)], map[], map[])
    ensures Exec(Cache(longest), s, es) ==
            State([Moment(0, a), Moment(0, b)], map[], map[0 := Fetching(UserOf("u"), 0, [0, 1])])
  {
    es := ReadsOnce(longest, a, s);
    es := Two(Cache(longest), s, es, Change(b), Read(0));
    assert [0] + [1] == [0, 1];
  }

  lemma LandsTorn(longest: nat)
    ensures var s := State([Moment(0, Before()), Moment(0, After())], map[],
                           map[0 := Fetching(UserOf("u"), 0, [0, 1])]);
            var t := Apply(Cache(longest), s, Land(0));
            && t.past == s.past && 0 in t.calls
            && t.calls[0] == Done(UserOf("u"), Some(User(UserStanding("u", "r", ["p"]))), 0)
  {
    TornLoad();
    var past := [Moment(0, Before()), Moment(0, After())];
    assert Observed(past, [0, 1]) == [Before(), After()];
  }

  /** However short a fetch may be, a run comes back with a standing nobody had at any moment of it. */
  lemma StandingNobodyHad(longest: nat) returns (s: World, es: Run, found: Standing)
    ensures CameBack(longest, s, es, 0, UserOf("u"), found)
    ensures var past := Exec(Cache(longest), s, es).past;
            forall m :: 0 <= m < |past| ==> !StoodAt(past[m].source, "u", found)
  {
    s, found := State([Moment(0, Before())], map[], map[]), User(UserStanding("u", "r", ["p"]));
    es := ReadsBoth(longest, Before(), After(), s);
    ExecSnoc(Cache(longest), s, es, Land(0));
    es := es + [Land(0)];
    LandsTorn(longest);
    TornLoad();
  }

  /** An app's standing is its row as it stood less than one time to live and one fetch ago, active and not
      retired: that client, that app, those scopes. */
  lemma AppIsRecent(longest: nat, s: World, es: Run, c: nat, id: string, found: Standing) returns (i: nat)
    requires CameBack(longest, s, es, c, AppOf(id), found)
    ensures var t := Exec(Cache(longest), s, es);
            && i < |t.past| && t.past[i].now >= t.calls[c].at - (STANDING_TTL - 1 + longest)
            && id in t.past[i].source.apps
            && var row := t.past[i].source.apps[id];
               row.active && !row.retired && found == App(AppStanding(row.clientId, row.appId, row.scopes))
  {
    ReturnedIsRecent(Cache(longest), s, es, c);
    i := AppWasHeld(longest, Exec(Cache(longest), s, es), id, found,
                    Exec(Cache(longest), s, es).calls[c].at - (STANDING_TTL - 1 + longest));
  }

  lemma AppWasHeld(longest: nat, t: World, id: string, found: Standing, from: int) returns (i: nat)
    requires HeldSince(Cache(longest), t, AppOf(id), found, from)
    ensures i < |t.past| && t.past[i].now >= from
    ensures LoadApp(t.past[i].source, id).Some? && found == App(LoadApp(t.past[i].source, id).value)
  {
    var views :| ReadSince(t, views, from) && |views| == 1 && Load(AppOf(id), Observed(t.past, views)) == Some(found);
    i := views[0];
    assert Observed(t.past, views)[0] == t.past[i].source;
  }

  /** The owner may not act: an inactive, retired or missing client, an inactive or missing person. */
  predicate Barred(db: Tables, owner: Owner)
  {
    match owner
    case AppOf(id) => id !in db.apps || !db.apps[id].active || db.apps[id].retired
    case UserOf(id) => id !in db.users || !db.users[id].active
  }

  /** An owner barred from `t0` on is refused at every door by every request whose lookup returns one time to
      live and one fetch after it, or later. */
  lemma BarredOwnerIsRefused(longest: nat, s: World, es: Run, c: nat, owner: Owner, t0: int,
                             clientId: string, registered: string, claimed: Option<string>)
    requires Start(s)
    requires var t := Exec(Cache(longest), s, es);
             && c in t.calls && t.calls[c].Done? && t.calls[c].key == owner
             && (forall i :: 0 <= i < |t.past| ==> t.past[i].now >= t0 ==> Barred(t.past[i].source, owner))
             && t.calls[c].at > t0 + 60_000_000 - 1 + longest
    ensures var found := Exec(Cache(longest), s, es).calls[c].result;
            SignedAnswer(found) == Unauthorized && PersonAnswer(found) == Unauthorized
            && MachineAnswer(clientId, registered, claimed, found) == Unauthorized
  {
    GoneIsRefused(Cache(longest), s, es, c, (db: Tables) => Barred(db, owner), t0);
  }

  /** The owner may act: not barred and, a person, in a role that exists and is not reserved. */
  predicate MayAct(db: Tables, owner: Owner, role: string)
  {
    && !Barred(db, owner)
    && (owner.UserOf? ==> db.users[owner.id].roleKey == role && role in db.roles && role !in {"system", "app"})
  }

  /** The converse: over every run in which an owner may act throughout, every lookup of theirs that does not fail
      comes back with a standing, and their key stands. */
  lemma ActiveOwnerStands(longest: nat, s: World, es: Run, c: nat, owner: Owner, role: string)
    requires Start(s) && forall i :: 0 <= i < |es| ==> es[i] != Fail(c)
    requires var t := Exec(Cache(longest), s, es);
             && c in t.calls && t.calls[c].Done? && t.calls[c].key == owner
             && (forall i :: 0 <= i < |t.past| ==> MayAct(t.past[i].source, owner, role))
    ensures var found := Exec(Cache(longest), s, es).calls[c].result;
            found.Some? && SignedAnswer(found) == Stands(found.value) && (found.value.User? <==> owner.UserOf?)
  {
    PresentIsFound(Cache(longest), s, es, c, owner, (db: Tables) => MayAct(db, owner, role));
    ReturnedIsRecent(Cache(longest), s, es, c);
  }

  // ----- what a standing may do -----

  /** A person may do exactly what the row of their role lists, as it stood no longer ago than the bound. */
  lemma PersonMayExactly(longest: nat, s: World, es: Run, c: nat, id: string, found: Standing, required: string)
    returns (j: nat)
    requires CameBack(longest, s, es, c, UserOf(id), found)
    ensures var t := Exec(Cache(longest), s, es);
            && j < |t.past| && t.past[j].now >= t.calls[c].at - (STANDING_TTL - 1 + longest)
            && found.User? && found.user.role in t.past[j].source.roles
            && var (ctx, listed) := (ContextFor(found), Unpack(t.past[j].source.roles[found.user.role]));
               && (RequirePermission(ctx, required) <==> required in listed)
               && (ctx.messageRead <==> "sms:read" in listed)
               && (ctx.optOutRead <==> "optout:read" in listed || "optout:manage" in listed)
               && ctx.sub == id && ctx.kind == UserKind && ctx.role == found.user.role && ctx.appId == ""
  {
    var i;
    i, j := PersonIsRecent(longest, s, es, c, id, found);
    RunKeepsInv(Cache(longest), s, es);
  }

  /** An app's key may do exactly what the client's row lists, as it stood no longer ago than the bound. */
  lemma AppMayExactly(longest: nat, s: World, es: Run, c: nat, id: string, found: Standing, required: string)
    returns (i: nat)
    requires CameBack(longest, s, es, c, AppOf(id), found)
    ensures var t := Exec(Cache(longest), s, es);
            && i < |t.past| && t.past[i].now >= t.calls[c].at - (STANDING_TTL - 1 + longest)
            && id in t.past[i].source.apps
            && var (ctx, row) := (ContextFor(found), t.past[i].source.apps[id]);
               && (RequirePermission(ctx, required) <==> required in Unpack(row.scopes))
               && (ctx.messageRead <==> "sms:read" in Unpack(row.scopes))
               && (ctx.optOutRead <==> "optout:read" in Unpack(row.scopes))
               && ctx.sub == row.clientId && ctx.kind == AppKind && ctx.role == "app" && ctx.appId == row.appId
  {
    i := AppIsRecent(longest, s, es, c, id, found);
    SplitGivesWords(Exec(Cache(longest), s, es).past[i].source.apps[id].scopes, []);
  }

  /** One cache, two doors: over every run, no person's token stands as an owner, an admin or a
      reserved role, though a key of the same person may have just cached that very standing, which the
      signed door honours. The rows the doors read fresh may be anything. */
  lemma NoTokenStandsAsOwner(longest: nat, s: World, es: Run, c: nat, id: string, found: Standing,
                             db: Tables, clientId: string, thumbprint: string, now: int,
                             look: Owner -> Option<Standing>)
    requires CameBack(longest, s, es, c, UserOf(id), found) && look(UserOf(id)) == Some(found)
    ensures found.User? && found.user.userId == id
    ensures PersonDoor(db, id, clientId, look).Stands? ==>
              && PersonDoor(db, id, clientId, look).standing == found
              && found.user.role !in {"owner", "admin", "system", "app"}
    ensures PersonDoor(db, id, clientId, look).Forbidden? <==>
              DeviceOnly(found.user.role) && PersonOwner(db, id, clientId).Some?
    ensures KeyOwner(db, Esp256, thumbprint, now) == Some(UserOf(id)) ==>
              SignedDoor(db, Esp256, thumbprint, now, look) == Stands(found)
  {
    var i, j := PersonIsRecent(longest, s, es, c, id, found);
  }

  /** Every answer the cache gives back is one some call of the run came back with. */
  ghost predicate FromRun(longest: nat, s: World, es: Run, look: Owner -> Option<Standing>)
  {
    forall owner :: look(owner).Some? ==> exists c :: CameBack(longest, s, es, c, owner, look(owner).value)
  }

  lemma ReservedIsNeverCached(longest: nat, s: World, es: Run, look: Owner -> Option<Standing>, owner: Owner)
    requires FromRun(longest, s, es, look) && look(owner).Some?
    ensures look(owner).value.User? <==> owner.UserOf?
    ensures owner.UserOf? ==> look(owner).value.user.userId == owner.id && !Reserved(look(owner).value.user.role)
  {
    var c :| CameBack(longest, s, es, c, owner, look(owner).value);
    match owner
    case AppOf(id) => var i := AppIsRecent(longest, s, es, c, id, look(owner).value);
    case UserOf(id) => var i, j := PersonIsRecent(longest, s, es, c, id, look(owner).value);
  }

  datatype Request =
    | Signed(alg: Alg, thumbprint: string)
    | MachineToken(clientId: string, claimed: Option<string>)
    | PersonToken(userId: string, clientId: string)

  function Admit(db: Tables, now: int, look: Owner -> Option<Standing>, request: Request,
                 authorization: bool): Admission
  {
    match request
    case Signed(alg, thumbprint) => Authenticate(Some(SignedDoor(db, alg, thumbprint, now, look)), None, authorization)
    case MachineToken(clientId, claimed) =>
      var answer := MachineDoor(db, clientId, claimed, look);
      if answer.Stands? then Authenticate(None, Some(answer.standing), true) else Refused
    case PersonToken(userId, clientId) =>
      var answer := PersonDoor(db, userId, clientId, look);
      if answer.Stands? then Authenticate(None, Some(answer.standing), true) else Refused
  }

  /** The rows as read on this very request: a key of the table its algorithm names, neither revoked nor
      expired, or an active client of the kind the token needs, which no client is of both. */
  predicate RowsAdmit(db: Tables, now: int, request: Request, authorization: bool)
  {
    match request
    case Signed(Ed25519, thumbprint) =>
      !authorization && thumbprint in db.clientKeys && !db.clientKeys[thumbprint].revoked
    case Signed(Esp256, thumbprint) =>
      && !authorization && thumbprint in db.consoleKeys && !db.consoleKeys[thumbprint].revoked
      && now < db.consoleKeys[thumbprint].expiresAt
    case Signed(OtherAlg, _) => false
    case MachineToken(clientId, _) =>
      clientId in db.oauth && db.oauth[clientId].active && db.oauth[clientId].appClientId.Some?
    case PersonToken(_, clientId) =>
      && clientId in db.oauth && db.oauth[clientId].active
      && db.oauth[clientId].isPublic && db.oauth[clientId].appClientId.None?
  }

  /** Whose name the request may act in, where its row or its token says. */
  predicate ActsFor(db: Tables, request: Request, sub: string)
  {
    match request
    case Signed(alg, thumbprint) =>
      alg.Esp256? && thumbprint in db.consoleKeys ==> sub == db.consoleKeys[thumbprint].userId
    case MachineToken(clientId, _) => sub == clientId
    case PersonToken(userId, _) => sub == userId
  }

  /** What the cache holds for the owner the rows name lets the request in: a standing for a key, the client's
      own for its token, and for a person's token one whose role may come by token at all. */
  predicate StandingAdmits(db: Tables, now: int, look: Owner -> Option<Standing>, request: Request,
                           authorization: bool)
    requires RowsAdmit(db, now, request, authorization)
  {
    match request
    case Signed(Ed25519, thumbprint) => look(AppOf(db.clientKeys[thumbprint].appClientId)).Some?
    case Signed(Esp256, thumbprint) => look(UserOf(db.consoleKeys[thumbprint].userId)).Some?
    case Signed(OtherAlg, _) => false
    case MachineToken(clientId, _) =>
      var found := look(AppOf(db.oauth[clientId].appClientId.value));
      found.Some? && found.value.App? && found.value.app.clientId == clientId
    case PersonToken(userId, _) =>
      var found := look(UserOf(userId));
      found.Some? && found.value.User? && found.value.user.role !in {"owner", "admin"}
  }

  /** Both halves: a request is admitted exactly when the rows read on it and the standing the cache holds for
      their owner admit it. */
  lemma AdmittedExactly(db: Tables, now: int, look: Owner -> Option<Standing>, request: Request, authorization: bool)
    ensures Admit(db, now, look, request, authorization).Admitted? <==>
            RowsAdmit(db, now, request, authorization) && StandingAdmits(db, now, look, request, authorization)
    ensures forall answer, standing :: Authenticate(Some(answer), Some(standing), authorization) == Refused
  {
    match request
    case Signed(alg, _) => match alg { case _ => }
    case MachineToken(clientId, _) => match LiveOauthClient(db, clientId) { case _ => }
    case PersonToken(_, clientId) => match LiveOauthClient(db, clientId) { case _ => }
  }

  /** The internal system context is not reachable from a request: over every run and by either door,
      whoever gets in does not act as the system, only an app acts as an app, and nobody who came with a
      token acts as an owner or an admin. The rows read on the request let them in, whatever the cache
      holds, and they act in the name those rows and the token give. */
  lemma NoRequestIsTheSystem(longest: nat, s: World, es: Run, look: Owner -> Option<Standing>, db: Tables, now: int,
                             request: Request, authorization: bool)
    requires FromRun(longest, s, es, look)
    requires Admit(db, now, look, request, authorization).Admitted?
    ensures var ctx := Admit(db, now, look, request, authorization).ctx;
            && ctx.role != "system" && (ctx.kind.AppKind? <==> ctx.role == "app")
            && (!request.Signed? ==> !DeviceOnly(ctx.role))
            && RowsAdmit(db, now, request, authorization) && ActsFor(db, request, ctx.sub)
  {
    match request
    case Signed(alg, thumbprint) =>
      ReservedIsNeverCached(longest, s, es, look, KeyOwner(db, alg, thumbprint, now).value);
    case MachineToken(clientId, _) =>
      ReservedIsNeverCached(longest, s, es, look, MachineOwner(db, clientId).value);
    case PersonToken(userId, clientId) =>
      ReservedIsNeverCached(longest, s, es, look, PersonOwner(db, userId, clientId).value);
  }
}
