/**
 What a delivery lookup answers (`LookupPlan::from_args`, `message_filter`, `newest_receipts`,
 `lookup`): the plan a query becomes, the rows it selects, and the answer made of them.

 Parsing a phone number and the keyed hash of one are functions given from outside. Rows created at
 the same time may come back in either order, as the database leaves it. Times are microseconds.
 */
module LookupPlans {
  import opened Options
  import opened Text

  const DEFAULT_LIMIT: int := 10
  const MAX_LIMIT: int := 50
  const DAY: int := 86_400_000_000
  const DEFAULT_WINDOW: int := 7 * DAY
  const MAX_WINDOW: int := 90 * DAY

  datatype Asker = Person | App(appId: string)
  datatype Key = MessageId(id: string) | ClientRef(reference: string) | Msisdn(e164: string)
  datatype Query = Query(messageId: Option<string>, appId: Option<string>, clientRef: Option<string>,
                         msisdn: Option<string>, since: Option<int>, until: Option<int>, limit: Option<int>)
  datatype Plan = Plan(key: Key, appId: Option<string>, since: Option<int>, until: Option<int>, limit: int)

  datatype Rule = NotOneKey | OtherApp | BadAppId | BadMessageId | BlankRef | RefNeedsApp | BadNumber | BadLimit
                | Backwards | TooWide | TooOld

  datatype Result<T> = Ok(value: T) | Invalid(rule: Rule)

  type Parse = string -> Option<string>  // a mobile number, normalised

  function One(b: bool): nat { if b then 1 else 0 }

  predicate IsCuid(s: string)
  {
    2 <= |s| <= 32 && forall i :: 0 <= i < |s| ==> 'a' <= s[i] <= 'z' || '0' <= s[i] <= '9'
  }

  function Scope(q: Query, asker: Asker): Result<Option<string>>
  {
    match asker
    case App(own) => if q.appId.Some? && q.appId.value != own then Invalid(OtherApp) else Ok(Some(own))
    case Person => Ok(q.appId)
  }

  function KeyOf(q: Query, appId: Option<string>, parse: Parse): Result<Key>
  {
    if q.messageId.Some? then
      if IsCuid(q.messageId.value) then Ok(MessageId(q.messageId.value)) else Invalid(BadMessageId)
    else if q.clientRef.Some? then
      if Trim(q.clientRef.value) == "" then Invalid(BlankRef)
      else if appId.None? then Invalid(RefNeedsApp)
      else Ok(ClientRef(q.clientRef.value))
    else
      match parse(if q.msisdn.Some? then q.msisdn.value else "")
      case None => Invalid(BadNumber)
      case Some(e164) => Ok(Msisdn(e164))
  }

  /** An id is exact: it is bounded only if the caller asked. Anything else gets a window. */
  function Window(q: Query, key: Key, now: int): (Option<int>, Option<int>)
  {
    if key.MessageId? then (q.since, q.until)
    else
      var until := if q.until.Some? then q.until.value else now;
      (Some(if q.since.Some? then q.since.value else until - DEFAULT_WINDOW), Some(until))
  }

  function CheckWindow(key: Key, since: Option<int>, until: Option<int>, now: int): Option<Rule>
  {
    if since.None? || until.None? then None
    else if since.value > until.value then Some(Backwards)
    else if until.value - since.value > MAX_WINDOW then Some(TooWide)
    else if key.Msisdn? && since.value < now - MAX_WINDOW then Some(TooOld)
    else None
  }

  function FromArgs(q: Query, asker: Asker, now: int, parse: Parse): Result<Plan>
  {
    if One(q.messageId.Some?) + One(q.clientRef.Some?) + One(q.msisdn.Some?) != 1 then Invalid(NotOneKey)
    else
      match Scope(q, asker)
      case Invalid(rule) => Invalid(rule)
      case Ok(appId) =>
        if appId.Some? && !IsCuid(appId.value) then Invalid(BadAppId)
        else
          match KeyOf(q, appId, parse)
          case Invalid(rule) => Invalid(rule)
          case Ok(key) =>
            var limit := if q.limit.Some? then q.limit.value else DEFAULT_LIMIT;
            if limit < 1 || limit > MAX_LIMIT then Invalid(BadLimit)
            else
              var (since, until) := Window(q, key, now);
              match CheckWindow(key, since, until, now)
              case Some(rule) => Invalid(rule)
              case None => Ok(Plan(key, appId, since, until, limit))
  }

  datatype Message = Message(appId: string, createdAt: int, msisdnHash: string, reference: string, purged: bool)

  /** `message_filter`. `hash` is the keyed hash of a number. */
  predicate Matches(plan: Plan, hash: string -> string, id: string, m: Message)
  {
    && (match plan.key
        case MessageId(wanted) => id == wanted
        case ClientRef(reference) => m.reference == reference
        case Msisdn(e164) => m.msisdnHash == hash(e164) && !m.purged)
    && (plan.appId.Some? ==> m.appId == plan.appId.value)
    && (plan.since.Some? ==> m.createdAt >= plan.since.value)
    && (plan.until.Some? ==> m.createdAt <= plan.until.value)
  }

  /** Every accepted query, whatever it left out: an app key is held to its own app, a reference to one
      app, a number to unpurged rows of the last 90 days, and everything but an id to a window of at
      most 90 days; nothing is ever asked for without a key or by more than the largest limit. */
  lemma AcceptedQueriesAreBounded(q: Query, asker: Asker, now: int, parse: Parse, hash: string -> string, id: string,
                                  m: Message)
    requires FromArgs(q, asker, now, parse).Ok?
    ensures var plan := FromArgs(q, asker, now, parse).value;
            && 1 <= plan.limit <= 50
            && (asker.App? ==> plan.appId == Some(asker.appId))
            && (plan.key.ClientRef? ==> plan.appId.Some?)
            && (!plan.key.MessageId? ==>
                  && plan.since.Some? && plan.until.Some?
                  && plan.since.value <= plan.until.value <= plan.since.value + 90 * DAY)
            && (Matches(plan, hash, id, m) && plan.key.Msisdn? ==> !m.purged && m.createdAt >= now - 90 * DAY)
            && (Matches(plan, hash, id, m) && asker.App? ==> m.appId == asker.appId)
            && (Matches(plan, hash, id, m) && plan.key.MessageId? ==> q.messageId == Some(id))
  {
  }

  /** What a query asks for, read off its own fields: the message it names, or the reference, or the number by
      its hash and unpurged; of the app it may see; from and until when it says, and where it names no message,
      until now and for a week if it does not say. */
  predicate Wanted(q: Query, asker: Asker, now: int, parse: Parse, hash: string -> string, id: string, m: Message)
  {
    var latest := if q.until.Some? then q.until.value else now;
    && (q.messageId.Some? ==> id == q.messageId.value)
    && (q.clientRef.Some? ==> m.reference == q.clientRef.value)
    && (q.msisdn.Some? ==>
          parse(q.msisdn.value).Some? && m.msisdnHash == hash(parse(q.msisdn.value).value) && !m.purged)
    && (asker.App? ==> m.appId == asker.appId) && (q.appId.Some? ==> m.appId == q.appId.value)
    && (q.until.Some? ==> m.createdAt <= q.until.value) && (q.since.Some? ==> m.createdAt >= q.since.value)
    && (q.messageId.None? ==> m.createdAt <= latest && (q.since.None? ==> m.createdAt >= latest - 7 * DAY))
  }

  /** The plan of an accepted query matches exactly what the query asks for, and its limit is the query's, or 10. */
  lemma PlanIsTheQuery(q: Query, asker: Asker, now: int, parse: Parse, hash: string -> string, id: string, m: Message)
    requires FromArgs(q, asker, now, parse).Ok?
    ensures var plan := FromArgs(q, asker, now, parse).value;
            && (Matches(plan, hash, id, m) <==> Wanted(q, asker, now, parse, hash, id, m))
            && plan.limit == if q.limit.Some? then q.limit.value else 10
  {
  }

  /** A query is refused only for a reason: with one key, a scope it may ask for, well-formed values and
      a window in bounds, it is planned. */
  lemma OnlyBadQueriesAreRefused(q: Query, asker: Asker, now: int, parse: Parse)
    ensures var appId := if asker.App? then Some(asker.appId) else q.appId;
            var until := if q.until.Some? then q.until.value else now;
            var since := if q.since.Some? then q.since.value else until - DEFAULT_WINDOW;
            FromArgs(q, asker, now, parse).Ok? <==>
            && (q.messageId.Some? || q.clientRef.Some? || q.msisdn.Some?)
            && !(q.messageId.Some? && q.clientRef.Some?) && !(q.messageId.Some? && q.msisdn.Some?)
            && !(q.clientRef.Some? && q.msisdn.Some?)
            && (asker.App? && q.appId.Some? ==> q.appId == appId) && (appId.Some? ==> IsCuid(appId.value))
            && (q.messageId.Some? ==> IsCuid(q.messageId.value))
            && (q.clientRef.Some? ==> appId.Some? && Trim(q.clientRef.value) != "")
            && (q.msisdn.Some? ==> parse(q.msisdn.value).Some? && since >= now - MAX_WINDOW)
            && (q.limit.Some? ==> 1 <= q.limit.value <= MAX_LIMIT)
            && (q.messageId.None? || (q.since.Some? && q.until.Some?) ==> since <= until <= since + MAX_WINDOW)
  {
  }
}

/** The rows a plan selects and the answer made of them. */
module DeliveryAnswers {
  import opened Options
  import opened LookupPlans

  datatype Receipt = Receipt(id: string, messageId: string, receivedAt: int)
  datatype Status = Status(messageId: string, message: Message, lastReceipt: Option<Receipt>)
  datatype Answer = Answer(statuses: seq<Status>, truncated: bool)

  type Messages = map<string, Message>

  function Selected(db: Messages, plan: Plan, hash: string -> string): set<string>
  {
    set id | id in db && Matches(plan, hash, id, db[id])
  }

  // ----- the reads -----

  /** Rows of the database, newest first: the order the query asks for. */
  predicate NewestFirst(db: Messages, rows: seq<string>)
  {
    && (forall i :: 0 <= i < |rows| ==> rows[i] in db)
    && (forall i, j :: 0 <= i < j < |rows| ==> rows[i] != rows[j] && db[rows[i]].createdAt >= db[rows[j]].createdAt)
  }

  /** These rows are the newest of a selection: nothing left out is newer than anything kept. */
  predicate AreNewest(db: Messages, selection: set<string>, rows: seq<string>)
  {
    && NewestFirst(db, rows) && (forall i :: 0 <= i < |rows| ==> rows[i] in selection)
    && (forall id, i :: id in selection && id in db && id !in rows && 0 <= i < |rows| ==>
        db[rows[i]].createdAt >= db[id].createdAt)
  }

  lemma {:induction false} NewestExists(db: Messages, ids: set<string>) returns (newest: string)
    requires ids != {} && ids <= db.Keys
    ensures newest in ids && forall id :: id in ids ==> db[newest].createdAt >= db[id].createdAt
  {
    var id :| id in ids;
    if ids == {id} {
      newest := id;
    } else {
      newest := NewestExists(db, ids - {id});
      if db[id].createdAt > db[newest].createdAt { newest := id; }
    }
  }

  /** `order_by(createdAt desc).limit(n)`: rows of one time in any order. */
  method Find(db: Messages, plan: Plan, hash: string -> string, n: nat) returns (rows: seq<string>)
    ensures AreNewest(db, Selected(db, plan, hash), rows)
    ensures |rows| == if n <= |Selected(db, plan, hash)| then n else |Selected(db, plan, hash)|
  {
    var rest := Selected(db, plan, hash);
    rows := [];
    while |rows| < n && rest != {}
      invariant rest <= Selected(db, plan, hash) && NewestFirst(db, rows)
      invariant forall id :: id in Selected(db, plan, hash) <==> id in rest || id in rows
      invariant forall i :: 0 <= i < |rows| ==> rows[i] !in rest
      invariant forall id, i :: id in rest && 0 <= i < |rows| ==> db[rows[i]].createdAt >= db[id].createdAt
      invariant |rows| + |rest| == |Selected(db, plan, hash)| && |rows| <= n
      decreases |rest|
    {
      ghost var newest := NewestExists(db, rest);
      var next :| next in rest && forall id :: id in rest ==> db[next].createdAt >= db[id].createdAt;
      rows, rest := rows + [next], rest - {next};
    }
  }

  predicate LatestFirst(rows: seq<Receipt>)
  {
    forall i, j :: 0 <= i < j < |rows| ==> rows[i].receivedAt >= rows[j].receivedAt
  }

  /** A newest receipt of the message among these, or none if there is none. */
  ghost predicate IsLast(receipts: set<Receipt>, messageId: string, last: Option<Receipt>)
  {
    match last
    case None => forall r :: r in receipts ==> r.messageId != messageId
    case Some(newest) =>
      && newest in receipts && newest.messageId == messageId
      && forall r :: r in receipts && r.messageId == messageId ==> r.receivedAt <= newest.receivedAt
  }

  lemma {:induction false} LatestExists(receipts: set<Receipt>) returns (latest: Receipt)
    requires receipts != {}
    ensures latest in receipts && forall r :: r in receipts ==> latest.receivedAt >= r.receivedAt
  {
    var r :| r in receipts;
    if receipts == {r} {
      latest := r;
    } else {
      latest := LatestExists(receipts - {r});
      if r.receivedAt > latest.receivedAt { latest := r; }
    }
  }

  /** `where messageId in ids order_by(receivedAt desc)`. */
  method FindReceipts(receipts: set<Receipt>, ids: seq<string>) returns (rows: seq<Receipt>)
    ensures LatestFirst(rows) && forall r :: r in rows <==> r in receipts && r.messageId in ids
  {
    var rest := set r | r in receipts && r.messageId in ids;
    rows := [];
    while rest != {}
      invariant LatestFirst(rows)
      invariant forall r :: r in receipts && r.messageId in ids <==> r in rest || r in rows
      invariant forall r, i :: r in rest && 0 <= i < |rows| ==> rows[i].receivedAt >= r.receivedAt
      decreases |rest|
    {
      ghost var latest := LatestExists(rest);
      var next :| next in rest && forall r :: r in rest ==> next.receivedAt >= r.receivedAt;
      rows, rest := rows + [next], rest - {next};
    }
  }

  /** The first row of each message, in an order that puts the newest first. */
  method FirstOfEach(rows: seq<Receipt>) returns (newest: map<string, Receipt>)
    requires LatestFirst(rows)
    ensures forall r :: r in rows ==> r.messageId in newest && r.receivedAt <= newest[r.messageId].receivedAt
    ensures forall id :: id in newest ==> newest[id].messageId == id && newest[id] in rows
  {
    newest := map[];
    for i := 0 to |rows|
      invariant forall j :: 0 <= j < i ==> rows[j].messageId in newest
      invariant forall id :: id in newest ==> newest[id].messageId == id && newest[id] in rows
      invariant forall id, j :: id in newest && 0 <= j < |rows| && rows[j].messageId == id ==>
                rows[j].receivedAt <= newest[id].receivedAt
    {
      if rows[i].messageId !in newest { newest := newest[rows[i].messageId := rows[i]]; }
    }
  }

  /** `newest_receipts`, for these messages. */
  method NewestReceipts(receipts: set<Receipt>, ids: seq<string>) returns (newest: map<string, Receipt>)
    ensures forall id :: id in ids ==> IsLast(receipts, id, if id in newest then Some(newest[id]) else None)
  {
    newest := map[];
    if |ids| == 0 { return; }
    var rows := FindReceipts(receipts, ids);
    newest := FirstOfEach(rows);
  }

  // ----- the answer -----

  /** What an answer must be: the newest rows of the selection, as many as asked for or as there are,
      newest first, each with its newest receipt; `truncated` exactly when there are more. */
  ghost predicate Answers(db: Messages, receipts: set<Receipt>, plan: Plan, hash: string -> string, a: Answer)
  {
    var (rows, all) := (Ids(a), Selected(db, plan, hash));
    && AreNewest(db, all, rows)
    && |rows| == (if plan.limit <= |all| then plan.limit else |all|)
    && (a.truncated <==> |all| > plan.limit)
    && forall i :: 0 <= i < |rows| ==>
      a.statuses[i].message == db[rows[i]] && IsLast(receipts, rows[i], a.statuses[i].lastReceipt)
  }

  function Ids(a: Answer): seq<string>
  {
    seq(|a.statuses|, i requires 0 <= i < |a.statuses| => a.statuses[i].messageId)
  }

  /** `rows.truncate(limit)` after asking for one more: still the newest, and the one more tells. */
  lemma CutIsNewest(db: Messages, selection: set<string>, rows: seq<string>, n: nat)
    requires AreNewest(db, selection, rows) && n <= |rows|
    ensures AreNewest(db, selection, rows[..n])
  {
  }

  method Statuses(db: Messages, receipts: set<Receipt>, rows: seq<string>) returns (statuses: seq<Status>)
    requires forall i :: 0 <= i < |rows| ==> rows[i] in db
    ensures |statuses| == |rows|
    ensures forall i :: 0 <= i < |rows| ==> statuses[i].messageId == rows[i] && statuses[i].message == db[rows[i]]
                                            && IsLast(receipts, rows[i], statuses[i].lastReceipt)
  {
    var newest := NewestReceipts(receipts, rows);
    statuses := [];
    for k := 0 to |rows|
      invariant |statuses| == k
      invariant forall i :: 0 <= i < k ==> statuses[i].messageId == rows[i] && statuses[i].message == db[rows[i]]
                                           && IsLast(receipts, rows[i], statuses[i].lastReceipt)
    {
      var last := if rows[k] in newest then Some(newest[rows[k]]) else None;
      statuses := statuses + [Status(rows[k], db[rows[k]], last)];
    }
  }

  /** `lookup`, from the plan to the answer. */
  method Lookup(db: Messages, receipts: set<Receipt>, plan: Plan, hash: string -> string) returns (a: Answer)
    requires 1 <= plan.limit <= MAX_LIMIT
    ensures Answers(db, receipts, plan, hash, a)
  {
    var rows := Find(db, plan, hash, plan.limit + 1);
    var truncated := |rows| > plan.limit;
    if truncated {
      CutIsNewest(db, Selected(db, plan, hash), rows, plan.limit);
      rows := rows[..plan.limit];
    }
    var statuses := Statuses(db, receipts, rows);
    a := Answer(statuses, truncated);
    assert Ids(a) == rows;
  }

  // ----- whose rows an answer depends on -----

  /** Two databases that differ only in other apps' messages and their receipts. */
  ghost predicate SameForApp(db: Messages, receipts: set<Receipt>, other: Messages, otherReceipts: set<Receipt>,
                             app: string)
  {
    && (forall id :: (id in db && db[id].appId == app) <==> (id in other && other[id].appId == app))
    && (forall id :: id in db && db[id].appId == app && id in other ==> db[id] == other[id])
    && (forall r: Receipt :: r.messageId in db && db[r.messageId].appId == app ==>
        (r in receipts <==> r in otherReceipts))
  }

  lemma SameSelection(db: Messages, receipts: set<Receipt>, other: Messages, otherReceipts: set<Receipt>, plan: Plan,
                      hash: string -> string)
    requires plan.appId.Some? && SameForApp(db, receipts, other, otherReceipts, plan.appId.value)
    ensures Selected(db, plan, hash) == Selected(other, plan, hash)
    ensures forall id :: id in Selected(db, plan, hash) ==> db[id] == other[id] && db[id].appId == plan.appId.value
  {
  }

  lemma SameAnswers(db: Messages, receipts: set<Receipt>, other: Messages, otherReceipts: set<Receipt>, plan: Plan,
                    hash: string -> string, a: Answer)
    requires plan.appId.Some? && SameForApp(db, receipts, other, otherReceipts, plan.appId.value)
    requires Answers(db, receipts, plan, hash, a)
    ensures Answers(other, otherReceipts, plan, hash, a)
  {
    SameSelection(db, receipts, other, otherReceipts, plan, hash);
    var (rows, all) := (Ids(a), Selected(db, plan, hash));
    assert forall i :: 0 <= i < |rows| ==> rows[i] in all && db[rows[i]] == other[rows[i]];
    forall i | 0 <= i < |rows| ensures IsLast(otherReceipts, rows[i], a.statuses[i].lastReceipt) {
      assert IsLast(receipts, rows[i], a.statuses[i].lastReceipt);
    }
  }

  /** An app key's answers depend on its own app's rows alone: change, add or remove anything of other
      apps and exactly the same answers are right. They show its own app's messages, by id, by reference
      or by number. */
  lemma AppSeesOnlyItsOwn(q: Query, app: string, now: int, parse: Parse, db: Messages, receipts: set<Receipt>,
                          other: Messages, otherReceipts: set<Receipt>, hash: string -> string, a: Answer)
    requires FromArgs(q, App(app), now, parse).Ok? && SameForApp(db, receipts, other, otherReceipts, app)
    ensures var plan := FromArgs(q, App(app), now, parse).value;
            && (Answers(db, receipts, plan, hash, a) <==> Answers(other, otherReceipts, plan, hash, a))
            && (Answers(db, receipts, plan, hash, a) ==>
                  forall i :: 0 <= i < |a.statuses| ==> a.statuses[i].message.appId == app)
  {
    var plan := FromArgs(q, App(app), now, parse).value;
    assert SameForApp(other, otherReceipts, db, receipts, app);
    if Answers(db, receipts, plan, hash, a) {
      SameAnswers(db, receipts, other, otherReceipts, plan, hash, a);
      forall i | 0 <= i < |a.statuses| ensures a.statuses[i].message.appId == app {
        assert Ids(a)[i] in Selected(db, plan, hash);
      }
    }
    if Answers(other, otherReceipts, plan, hash, a) { SameAnswers(other, otherReceipts, db, receipts, plan, hash, a); }
  }

  /** From the query to the answer: every row answered is one the query asks for, as the database has it, no more of
      them than it asked for; and one it asks for is missing only where the answer says it was cut, and then
      nothing answered is older. */
  lemma AnswersTheQuery(q: Query, asker: Asker, now: int, parse: Parse, db: Messages, receipts: set<Receipt>,
                        hash: string -> string, a: Answer)
    requires FromArgs(q, asker, now, parse).Ok?
    requires Answers(db, receipts, FromArgs(q, asker, now, parse).value, hash, a)
    ensures forall i :: 0 <= i < |a.statuses| ==>
              var (id, m) := (a.statuses[i].messageId, a.statuses[i].message);
              id in db && m == db[id] && Wanted(q, asker, now, parse, hash, id, m)
    ensures |a.statuses| <= if q.limit.Some? then q.limit.value else 10
    ensures forall id :: id in db && Wanted(q, asker, now, parse, hash, id, db[id]) && id !in Ids(a) ==>
              && a.truncated && |a.statuses| == (if q.limit.Some? then q.limit.value else 10)
              && forall i :: 0 <= i < |a.statuses| ==> a.statuses[i].message.createdAt >= db[id].createdAt
  {
    var plan := FromArgs(q, asker, now, parse).value;
    var (rows, all) := (Ids(a), Selected(db, plan, hash));
    forall id | id in db ensures id in all <==> Wanted(q, asker, now, parse, hash, id, db[id]) {
      PlanIsTheQuery(q, asker, now, parse, hash, id, db[id]);
    }
    PlanIsTheQuery(q, asker, now, parse, hash, "", Message("", 0, "", "", false));
    assert forall i :: 0 <= i < |rows| ==> rows[i] == a.statuses[i].messageId && rows[i] in all;
    if !a.truncated { WholeSelection(rows, all); }
  }

  lemma {:induction false} WholeSelection(rows: seq<string>, all: set<string>)
    requires forall i :: 0 <= i < |rows| ==> rows[i] in all
    requires forall i, j :: 0 <= i < j < |rows| ==> rows[i] != rows[j]
    requires |rows| >= |all|
    ensures forall id :: id in all ==> id in rows
  {
    if |rows| > 0 {
      var n := |rows| - 1;
      WholeSelection(rows[..n], all - {rows[n]});
      assert rows == rows[..n] + [rows[n]];
    }
  }

  /** Whatever is answered to a lookup by number is unpurged and no older than 90 days. */
  lemma NumbersFindNoPurgedHistory(q: Query, asker: Asker, now: int, parse: Parse, db: Messages, receipts: set<Receipt>,
                                   hash: string -> string, a: Answer, i: nat)
    requires FromArgs(q, asker, now, parse).Ok? && FromArgs(q, asker, now, parse).value.key.Msisdn?
    requires Answers(db, receipts, FromArgs(q, asker, now, parse).value, hash, a) && i < |a.statuses|
    ensures !a.statuses[i].message.purged && a.statuses[i].message.createdAt >= now - MAX_WINDOW
  {
    var plan := FromArgs(q, asker, now, parse).value;
    assert Ids(a)[i] in Selected(db, plan, hash);
    AcceptedQueriesAreBounded(q, asker, now, parse, hash, Ids(a)[i], db[Ids(a)[i]]);
  }
}
