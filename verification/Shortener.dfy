/** net/http/shortener/shortener.cc with init.sql: a table, a cache in front of it, and any number of
    concurrent calls of ApiShorten and Redirect whose statements may fail one by one. */
module Shorteners {
  import opened Wrappers
  import opened Base62
  import opened Decimals

  /** The width of the code column. */
  const CODE_WIDTH: nat := 16

  datatype Row = Row(code: string, url: string)

  /** `seqs` are the static counters of the processes that share the database. */
  datatype Store = Store(table: map<nat, Row>, nextId: nat, cache: map<string, string>, seqs: map<nat, nat>)

  // ---- placeholders ----

  /** "TMP_%d_%ld" */
  function Placeholder(pid: nat, count: nat): string {
    "TMP_" + Decimal(pid) + "_" + Decimal(count)
  }

  /** The column holds a placeholder only while process id and counter have at most eleven digits
      between them; from then on the process cannot insert any more. */
  lemma PlaceholderFits(pid: nat, count: nat)
    ensures |Placeholder(pid, count)| <= CODE_WIDTH <==>
      |Decimal(pid)| <= 10 && count < Power10(11 - |Decimal(pid)|)
  {
    if |Decimal(pid)| <= 10 {
      DecimalLength(count, 11 - |Decimal(pid)|);
    }
  }

  lemma {:induction false} FirstUnderscore(a: string, b: string, c: string, d: string)
    requires '_' !in a && '_' !in c && a + "_" + b == c + "_" + d
    ensures a == c && b == d
  {
    var s := a + "_" + b;
    assert s[|a|] == '_' && s[|c|] == '_';
    forall i | 0 <= i < |a| ensures s[i] != '_' {
      assert s[i] == a[i];
    }
    forall i | 0 <= i < |c| ensures s[i] != '_' {
      assert s[i] == c[i];
    }
    assert a == s[..|a|] && c == s[..|c|] && b == s[|a| + 1..] && d == s[|c| + 1..];
  }

  /** What process id and counter are for: different ones make different placeholders. */
  lemma PlaceholdersDiffer(pid: nat, count: nat, pid2: nat, count2: nat)
    ensures Placeholder(pid, count) == Placeholder(pid2, count2) <==> pid == pid2 && count == count2
  {
    if Placeholder(pid, count) == Placeholder(pid2, count2) {
      var a, b, c, d := Decimal(pid), Decimal(count), Decimal(pid2), Decimal(count2);
      assert Placeholder(pid, count)[4..] == a + "_" + b && Placeholder(pid2, count2)[4..] == c + "_" + d;
      FirstUnderscore(a, b, c, d);
      DecimalReads(pid);
      DecimalReads(count);
      DecimalReads(pid2);
      DecimalReads(count2);
    }
  }

  // ---- C strings ----

  /** What is left of a value that passes through a char pointer. */
  function CStr(s: string): (r: string)
    ensures r <= s && '\0' !in r
    ensures r == s <==> '\0' !in s
    ensures r == "" <==> s == "" || s[0] == '\0'
  {
    if s == "" || s[0] == '\0' then "" else [s[0]] + CStr(s[1..])
  }

  // ---- the statements ----

  function SeqOf(st: Store, pid: nat): nat {
    if pid in st.seqs then st.seqs[pid] else 0
  }

  predicate CodeInUse(st: Store, code: string) {
    exists id :: id in st.table && st.table[id].code == code
  }

  /** The unique key, the width of the column and the range of the id allow the INSERT. */
  predicate CanInsert(st: Store, pid: nat) {
    var code := Placeholder(pid, SeqOf(st, pid) + 1);
    |code| <= CODE_WIDTH && !CodeInUse(st, code) && st.nextId < TWO_TO_THE_64
  }

  /** `++seq` happens even when the INSERT then fails. */
  function Counted(st: Store, pid: nat): Store {
    st.(seqs := st.seqs[pid := SeqOf(st, pid) + 1])
  }

  function Inserted(st: Store, pid: nat, url: string): Store {
    var code := Placeholder(pid, SeqOf(st, pid) + 1);
    Counted(st, pid).(table := st.table[st.nextId := Row(code, url)], nextId := st.nextId + 1)
  }

  /** The unique key allows the UPDATE. */
  predicate CanUpdate(st: Store, id: nat) {
    forall other :: other in st.table && other != id ==> st.table[other].code != Code(id)
  }

  function Updated(st: Store, id: nat): Store
    requires id in st.table
  {
    st.(table := st.table[id := st.table[id].(code := Code(id))])
  }

  function Cached(st: Store, code: string, url: string): Store {
    st.(cache := st.cache[code := CStr(url)])
  }

  /** Redis_Client::Get: a miss and an error read like an empty value. */
  function Got(st: Store, code: string): string {
    if code in st.cache then st.cache[code] else ""
  }

  /** `SELECT long_url ... WHERE code=...` found this row. */
  predicate Selects(st: Store, code: string, id: nat) {
    id in st.table && st.table[id].code == code
  }

  // ---- the calls ----

  type CallId = nat

  /** Where a call of ApiShorten or Redirect is; `updated` says whether its UPDATE was applied; None in
      Redirected is the answer 404. */
  datatype Pc =
    | Inserting(url: string)
    | Updating(id: nat, url: string)
    | Caching(id: nat, url: string, updated: bool)
    | Shortened(id: nat, url: string, updated: bool)
    | Failed
    | Looking(code: string)
    | Querying(code: string)
    | Backfilling(code: string, found: string)
    | Redirected(code: string, location: Option<string>)

  datatype State = State(store: Store, calls: map<CallId, Pc>)

  function Init(): State {
    State(Store(map[], 1, map[], map[]), map[])
  }

  /** An INSERT that cannot be applied is reported so; one that was applied may still be reported as
      failed, by a connection that is lost or times out behind it. */
  datatype Outcome = Done | Refused | Unreported

  /** `ok` is false when the statement is not applied for a reason of its own; nothing but a log line
      depends on what is reported of an UPDATE or a SETEX. */
  datatype Action =
    | StartShorten(call: CallId, url: string)
    | Insert(call: CallId, pid: nat, outcome: Outcome)
    | Update(call: CallId, ok: bool)
    | Cache(call: CallId, ok: bool)
    | StartRedirect(call: CallId, code: string)
    | Look(call: CallId, ok: bool)
    | Query(call: CallId, row: Option<nat>)
    | Backfill(call: CallId, ok: bool)
    | Evict(code: string)
    | Restart(pid: nat)

  /** The route of Redirect matches non-empty strings of letters and digits only; a SELECT may fail
      but finds a row exactly when there is one. */
  predicate Enabled(s: State, a: Action) {
    match a
    case StartShorten(call, _) => call !in s.calls
    case Insert(call, _, _) => call in s.calls && s.calls[call].Inserting?
    case Update(call, _) => call in s.calls && s.calls[call].Updating? && s.calls[call].id in s.store.table
    case Cache(call, _) => call in s.calls && s.calls[call].Caching?
    case StartRedirect(call, code) => call !in s.calls && code != "" && IsNumeral(code)
    case Look(call, _) => call in s.calls && s.calls[call].Looking?
    case Query(call, row) =>
      call in s.calls && s.calls[call].Querying? && (row.Some? ==> Selects(s.store, s.calls[call].code, row.value))
    case Backfill(call, _) => call in s.calls && s.calls[call].Backfilling?
    case Evict(_) => true
    case Restart(_) => true
  }

  function At(s: State, call: CallId, pc: Pc): State {
    s.(calls := s.calls[call := pc])
  }

  function NonEmpty(url: string): Option<string> {
    if url == "" then None else Some(url)
  }

  function Next(s: State, a: Action): State
    requires Enabled(s, a)
  {
    var st := s.store;
    match a
    case StartShorten(call, url) => At(s, call, if url == "" then Failed else Inserting(url))
    case Insert(call, pid, outcome) =>
      var url := s.calls[call].url;
      At(s, call, if outcome.Done? && CanInsert(st, pid) then Updating(st.nextId, url) else Failed)
        .(store := if !outcome.Refused? && CanInsert(st, pid) then Inserted(st, pid, url) else Counted(st, pid))
    case Update(call, ok) =>
      var pc := s.calls[call];
      var updated := ok && CanUpdate(st, pc.id);
      At(s, call, Caching(pc.id, pc.url, updated)).(store := if updated then Updated(st, pc.id) else st)
    case Cache(call, ok) =>
      var pc := s.calls[call];
      At(s, call, Shortened(pc.id, pc.url, pc.updated)).(store := if ok then Cached(st, Code(pc.id), pc.url) else st)
    case StartRedirect(call, code) => At(s, call, Looking(code))
    case Look(call, ok) =>
      var code := s.calls[call].code;
      var url := if ok then Got(st, code) else "";
      At(s, call, if url != "" then Redirected(code, Some(url)) else Querying(code))
    case Query(call, row) =>
      var code := s.calls[call].code;
      At(s, call, if row.None? then Redirected(code, None) else Backfilling(code, CStr(st.table[row.value].url)))
    case Backfill(call, ok) =>
      var pc := s.calls[call];
      At(s, call, Redirected(pc.code, NonEmpty(pc.found))).(store := if ok then Cached(st, pc.code, pc.found) else st)
    case Evict(code) => s.(store := st.(cache := st.cache - {code}))
    case Restart(pid) => s.(store := st.(seqs := st.seqs - {pid}))
  }

  /** Actions that are not possible are skipped. */
  function After(s: State, a: Action): State {
    if Enabled(s, a) then Next(s, a) else s
  }

  function Exec(schedule: seq<Action>): State {
    if schedule == [] then Init() else After(Exec(schedule[..|schedule| - 1]), schedule[|schedule| - 1])
  }

  // ---- the invariant ----

  /** A row keeps the submitted URL, under its own code or still under a placeholder. */
  ghost predicate RowOk(st: Store, id: nat) {
    id in st.table ==>
      && 1 <= id < st.nextId && st.table[id].url != ""
      && (st.table[id].code == Code(id) || '_' in st.table[id].code)
  }

  ghost predicate CodesDiffer(st: Store, a: nat, b: nat) {
    a in st.table && b in st.table && a != b ==> st.table[a].code != st.table[b].code
  }

  /** The row that a code belongs to, whether or not its UPDATE has happened. */
  predicate Owns(st: Store, code: string, id: nat) {
    id in st.table && code == Code(id)
  }

  /** The code belongs to the row whose id it decodes to, and the text is that row's URL as far as
      a char pointer carries it. */
  predicate Means(st: Store, code: string, text: string) {
    Owns(st, code, Value(code)) && text == CStr(st.table[Value(code)].url)
  }

  ghost predicate EntryOk(st: Store, code: string) {
    code in st.cache ==> Means(st, code, st.cache[code])
  }

  predicate Stored(st: Store, id: nat, url: string) {
    id in st.table && st.table[id].url == url
  }

  predicate PcOk(st: Store, pc: Pc) {
    match pc
    case Inserting(url) => url != ""
    case Updating(id, url) => Stored(st, id, url)
    case Caching(id, url, _) => Stored(st, id, url)
    case Shortened(id, url, _) => Stored(st, id, url)
    case Failed => true
    case Looking(code) => code != "" && IsNumeral(code)
    case Querying(code) => code != "" && IsNumeral(code)
    case Backfilling(code, found) => Means(st, code, found) && Selects(st, code, Value(code))
    case Redirected(code, location) => location.Some? ==> Means(st, code, location.value) && location.value != ""
  }

  ghost predicate CallOk(s: State, call: CallId) {
    call in s.calls ==> PcOk(s.store, s.calls[call])
  }

  ghost predicate TableOk(st: Store) {
    && 1 <= st.nextId <= TWO_TO_THE_64
    && (forall id: nat :: RowOk(st, id))
    && (forall a: nat, b: nat :: CodesDiffer(st, a, b))
  }

  ghost predicate Inv(s: State) {
    TableOk(s.store) && (forall code :: EntryOk(s.store, code)) && (forall call: CallId :: CallOk(s, call))
  }

  /** Rows stay, with their URLs, and a code once written as well. */
  ghost predicate Grows(st: Store, later: Store) {
    forall id :: id in st.table ==>
      && id in later.table && later.table[id].url == st.table[id].url
      && (later.table[id].code == st.table[id].code || later.table[id].code == Code(id))
  }

  lemma MeansGrows(st: Store, later: Store, code: string, text: string)
    requires Grows(st, later) && Means(st, code, text)
    ensures Means(later, code, text)
  {
  }

  lemma PcGrows(st: Store, later: Store, pc: Pc)
    requires Grows(st, later) && PcOk(st, pc)
    ensures PcOk(later, pc)
  {
  }

  /** The code of a row that a SELECT for letters and digits finds is the row's own. */
  lemma SelectedIsOwn(st: Store, code: string, id: nat)
    requires TableOk(st) && IsNumeral(code) && Selects(st, code, id)
    ensures Owns(st, code, id) && Value(code) == id
  {
    assert RowOk(st, id);
    forall c | c in code ensures IsDigit(c) {
      var k :| 0 <= k < |code| && code[k] == c;
    }
    DecodeEncode(id);
  }

  lemma OwnCode(st: Store, id: nat)
    requires TableOk(st) && id in st.table
    ensures Owns(st, Code(id), Value(Code(id))) && Value(Code(id)) == id
  {
    assert RowOk(st, id);
    DecodeEncode(id);
  }

  // ---- the steps ----

  lemma InsertTable(st: Store, pid: nat, url: string)
    requires TableOk(st) && CanInsert(st, pid) && url != ""
    ensures TableOk(Inserted(st, pid, url)) && Grows(st, Inserted(st, pid, url))
  {
    var t, code := Inserted(st, pid, url), Placeholder(pid, SeqOf(st, pid) + 1);
    assert RowOk(st, st.nextId);
    assert code[3] == '_';
    forall id: nat ensures RowOk(t, id) {
      assert RowOk(st, id);
    }
    forall a: nat, b: nat ensures CodesDiffer(t, a, b) {
      assert CodesDiffer(st, a, b);
    }
  }

  /** No UPDATE can violate the unique key: other rows hold placeholders, which contain a '_', or
      codes of other ids. */
  lemma UpdateIsAllowed(st: Store, id: nat)
    requires TableOk(st)
    ensures CanUpdate(st, id)
  {
    forall other | other in st.table && other != id ensures st.table[other].code != Code(id) {
      assert RowOk(st, other);
      CodeIsCanonical(id);
      if Code(other) == Code(id) {
        CodeInjective(other, id);
      }
    }
  }

  lemma UpdateTable(st: Store, id: nat)
    requires TableOk(st) && id in st.table
    ensures TableOk(Updated(st, id)) && Grows(st, Updated(st, id))
  {
    var t := Updated(st, id);
    UpdateIsAllowed(st, id);
    forall x: nat ensures RowOk(t, x) {
      assert RowOk(st, x);
    }
    forall a: nat, b: nat ensures CodesDiffer(t, a, b) {
      assert CodesDiffer(st, a, b);
    }
  }

  /** The table grew and one call moved on. */
  lemma Moved(s: State, later: Store, call: CallId, pc: Pc)
    requires Inv(s) && TableOk(later) && Grows(s.store, later) && PcOk(later, pc)
    requires forall code :: EntryOk(later, code)
    ensures Inv(At(s, call, pc).(store := later))
  {
    var t := At(s, call, pc).(store := later);
    forall c: CallId ensures CallOk(t, c) {
      assert CallOk(s, c);
      if c != call && c in s.calls {
        PcGrows(s.store, later, s.calls[c]);
      }
    }
  }

  lemma SameCache(st: Store, later: Store)
    requires Grows(st, later) && later.cache == st.cache && forall code :: EntryOk(st, code)
    ensures forall code :: EntryOk(later, code)
  {
    forall code ensures EntryOk(later, code) {
      assert EntryOk(st, code);
    }
  }

  lemma CachedOk(st: Store, code: string, url: string)
    requires Means(st, code, CStr(url)) && forall c :: EntryOk(st, c)
    ensures forall c :: EntryOk(Cached(st, code, url), c)
  {
    forall c ensures EntryOk(Cached(st, code, url), c) {
      assert EntryOk(st, c);
    }
  }

  lemma CachedTable(st: Store, code: string, url: string)
    requires TableOk(st)
    ensures TableOk(Cached(st, code, url)) && Grows(st, Cached(st, code, url))
  {
    SameTable(st, Cached(st, code, url));
  }

  lemma SameTable(st: Store, later: Store)
    requires TableOk(st) && later.table == st.table && later.nextId == st.nextId
    ensures TableOk(later) && Grows(st, later)
  {
    forall id: nat ensures RowOk(later, id) {
      assert RowOk(st, id);
    }
    forall a: nat, b: nat ensures CodesDiffer(later, a, b) {
      assert CodesDiffer(st, a, b);
    }
  }

  lemma InsertKeeps(s: State, call: CallId, pid: nat, outcome: Outcome)
    requires Inv(s) && Enabled(s, Insert(call, pid, outcome))
    ensures Inv(Next(s, Insert(call, pid, outcome)))
  {
    assert CallOk(s, call);
    var st, url := s.store, s.calls[call].url;
    if !outcome.Refused? && CanInsert(st, pid) {
      InsertTable(st, pid, url);
      SameCache(st, Inserted(st, pid, url));
      Moved(s, Inserted(st, pid, url), call, if outcome.Done? then Updating(st.nextId, url) else Failed);
    } else {
      SameTable(st, Counted(st, pid));
      SameCache(st, Counted(st, pid));
      Moved(s, Counted(st, pid), call, Failed);
    }
  }

  lemma UpdateKeeps(s: State, call: CallId, ok: bool)
    requires Inv(s) && Enabled(s, Update(call, ok))
    ensures Inv(Next(s, Update(call, ok)))
  {
    assert CallOk(s, call);
    var st, pc := s.store, s.calls[call];
    UpdateTable(st, pc.id);
    var later := if ok && CanUpdate(st, pc.id) then Updated(st, pc.id) else st;
    SameCache(st, later);
    Moved(s, later, call, Next(s, Update(call, ok)).calls[call]);
  }

  lemma CacheKeeps(s: State, call: CallId, ok: bool)
    requires Inv(s) && Enabled(s, Cache(call, ok))
    ensures Inv(Next(s, Cache(call, ok)))
  {
    assert CallOk(s, call);
    var st, pc := s.store, s.calls[call];
    OwnCode(st, pc.id);
    CachedTable(st, Code(pc.id), pc.url);
    CachedOk(st, Code(pc.id), pc.url);
    Moved(s, if ok then Cached(st, Code(pc.id), pc.url) else st, call, Shortened(pc.id, pc.url, pc.updated));
  }

  lemma LookKeeps(s: State, call: CallId, ok: bool)
    requires Inv(s) && Enabled(s, Look(call, ok))
    ensures Inv(Next(s, Look(call, ok)))
  {
    assert CallOk(s, call);
    var code := s.calls[call].code;
    assert EntryOk(s.store, code);
    var url := if ok then Got(s.store, code) else "";
    Moved(s, s.store, call, if url != "" then Redirected(code, Some(url)) else Querying(code));
  }

  lemma QueryKeeps(s: State, call: CallId, row: Option<nat>)
    requires Inv(s) && Enabled(s, Query(call, row))
    ensures Inv(Next(s, Query(call, row)))
  {
    assert CallOk(s, call);
    var code := s.calls[call].code;
    if row.Some? {
      SelectedIsOwn(s.store, code, row.value);
      Moved(s, s.store, call, Backfilling(code, CStr(s.store.table[row.value].url)));
    } else {
      Moved(s, s.store, call, Redirected(code, None));
    }
  }

  lemma BackfillKeeps(s: State, call: CallId, ok: bool)
    requires Inv(s) && Enabled(s, Backfill(call, ok))
    ensures Inv(Next(s, Backfill(call, ok)))
  {
    assert CallOk(s, call);
    var st, pc := s.store, s.calls[call];
    assert CStr(pc.found) == pc.found;
    CachedTable(st, pc.code, pc.found);
    CachedOk(st, pc.code, pc.found);
    var later := if ok then Cached(st, pc.code, pc.found) else st;
    MeansGrows(st, later, pc.code, pc.found);
    Moved(s, later, call, Redirected(pc.code, NonEmpty(pc.found)));
  }

  /** The calls are untouched and the table is. */
  lemma StoreKeeps(s: State, later: Store)
    requires Inv(s) && later.table == s.store.table && later.nextId == s.store.nextId
    requires forall code :: code in later.cache ==> code in s.store.cache && later.cache[code] == s.store.cache[code]
    ensures Inv(s.(store := later))
  {
    var t := s.(store := later);
    SameTable(s.store, later);
    forall code ensures EntryOk(later, code) {
      assert EntryOk(s.store, code);
    }
    forall c: CallId ensures CallOk(t, c) {
      assert CallOk(s, c);
      if c in s.calls {
        PcGrows(s.store, later, s.calls[c]);
      }
    }
  }

  lemma NextKeeps(s: State, a: Action)
    requires Inv(s) && Enabled(s, a)
    ensures Inv(Next(s, a))
  {
    match a
    case StartShorten(call, url) => Moved(s, s.store, call, if url == "" then Failed else Inserting(url));
    case Insert(call, pid, outcome) => InsertKeeps(s, call, pid, outcome);
    case Update(call, ok) => UpdateKeeps(s, call, ok);
    case Cache(call, ok) => CacheKeeps(s, call, ok);
    case StartRedirect(call, code) => Moved(s, s.store, call, Looking(code));
    case Look(call, ok) => LookKeeps(s, call, ok);
    case Query(call, row) => QueryKeeps(s, call, row);
    case Backfill(call, ok) => BackfillKeeps(s, call, ok);
    case Evict(code) => StoreKeeps(s, s.store.(cache := s.store.cache - {code}));
    case Restart(pid) => StoreKeeps(s, s.store.(seqs := s.store.seqs - {pid}));
  }

  lemma {:induction false} AlwaysInv(schedule: seq<Action>)
    ensures Inv(Exec(schedule))
  {
    if schedule != [] {
      var s, a := Exec(schedule[..|schedule| - 1]), schedule[|schedule| - 1];
      AlwaysInv(schedule[..|schedule| - 1]);
      if Enabled(s, a) {
        NextKeeps(s, a);
      }
    }
  }

  // ---- the theorems, for every run ----

  /** Every UPDATE that is about to run is allowed by the unique key, and codes stay unique. */
  lemma UpdatesNeverClash(schedule: seq<Action>)
    ensures var s := Exec(schedule);
      && (forall call: CallId :: call in s.calls && s.calls[call].Updating? ==> CanUpdate(s.store, s.calls[call].id))
      && (forall a, b :: a in s.store.table && b in s.store.table && a != b ==>
            s.store.table[a].code != s.store.table[b].code)
  {
    var s := Exec(schedule);
    AlwaysInv(schedule);
    forall call: CallId | call in s.calls && s.calls[call].Updating? ensures CanUpdate(s.store, s.calls[call].id) {
      UpdateIsAllowed(s.store, s.calls[call].id);
    }
    forall a: nat, b: nat | a in s.store.table && b in s.store.table && a != b
      ensures s.store.table[a].code != s.store.table[b].code
    {
      assert CodesDiffer(s.store, a, b);
    }
  }

  /** The cache is coherent whatever fails, is evicted or is filled again: a cached code is that of
      an existing row, and its value is that row's URL up to the first NUL.  It is the whole URL
      exactly if that has no NUL, and it reads like a miss exactly if the URL begins with one. */
  lemma CacheIsCoherent(schedule: seq<Action>, code: string)
    requires code in Exec(schedule).store.cache
    ensures var st := Exec(schedule).store; var id := Value(code);
      && id in st.table && code == Code(id) && st.table[id].url != ""
      && st.cache[code] == CStr(st.table[id].url)
      && (st.cache[code] == st.table[id].url <==> '\0' !in st.table[id].url)
      && (Got(st, code) == "" <==> st.table[id].url[0] == '\0')
  {
    var st := Exec(schedule).store;
    AlwaysInv(schedule);
    assert EntryOk(st, code) && RowOk(st, Value(code));
  }

  /** A redirect only ever leads to the URL that was shortened to this code. */
  lemma RedirectsAreTrue(schedule: seq<Action>, call: CallId)
    requires var s := Exec(schedule); call in s.calls && s.calls[call].Redirected? && s.calls[call].location.Some?
    ensures var s := Exec(schedule); var pc := s.calls[call]; var id := Value(pc.code);
      && id in s.store.table && pc.code == Code(id)
      && pc.location.value == CStr(s.store.table[id].url) && pc.location.value != ""
  {
    AlwaysInv(schedule);
    assert CallOk(Exec(schedule), call);
  }

  // ---- no two calls share a code ----

  function IdOf(pc: Pc): Option<nat> {
    match pc
    case Updating(id, _) => Some(id)
    case Caching(id, _, _) => Some(id)
    case Shortened(id, _, _) => Some(id)
    case _ => None
  }

  ghost predicate IdsDiffer(s: State, a: CallId, b: CallId) {
    a in s.calls && b in s.calls && a != b && IdOf(s.calls[a]).Some? ==> IdOf(s.calls[a]) != IdOf(s.calls[b])
  }

  lemma KnownId(s: State, call: CallId)
    requires Inv(s) && call in s.calls && IdOf(s.calls[call]).Some?
    ensures IdOf(s.calls[call]).value < s.store.nextId
  {
    assert CallOk(s, call) && RowOk(s.store, IdOf(s.calls[call]).value);
  }

  lemma NextIdsDiffer(s: State, a: Action, x: CallId, y: CallId)
    requires Inv(s) && Enabled(s, a) && IdsDiffer(s, x, y)
    ensures IdsDiffer(Next(s, a), x, y)
  {
    if x in s.calls && IdOf(s.calls[x]).Some? {
      KnownId(s, x);
    }
    if y in s.calls && IdOf(s.calls[y]).Some? {
      KnownId(s, y);
    }
  }

  lemma {:induction false} AlwaysIdsDiffer(schedule: seq<Action>, x: CallId, y: CallId)
    ensures IdsDiffer(Exec(schedule), x, y)
  {
    if schedule != [] {
      var s, a := Exec(schedule[..|schedule| - 1]), schedule[|schedule| - 1];
      AlwaysIdsDiffer(schedule[..|schedule| - 1], x, y);
      AlwaysInv(schedule[..|schedule| - 1]);
      if Enabled(s, a) {
        NextIdsDiffer(s, a, x, y);
      }
    }
  }

  /** Two calls of ApiShorten are never answered with the same code, and the code each was answered
      with decodes to the row that holds its URL. */
  lemma CodesAreNotShared(schedule: seq<Action>, a: CallId, b: CallId)
    requires a != b
    requires var s := Exec(schedule);
      a in s.calls && b in s.calls && s.calls[a].Shortened? && s.calls[b].Shortened?
    ensures var s := Exec(schedule);
      && Code(s.calls[a].id) != Code(s.calls[b].id)
      && Stored(s.store, Value(Code(s.calls[a].id)), s.calls[a].url)
  {
    var s := Exec(schedule);
    AlwaysInv(schedule);
    assert CallOk(s, a) && CallOk(s, b);
    AlwaysIdsDiffer(schedule, a, b);
    assert IdsDiffer(s, a, b);
    OwnCode(s.store, s.calls[a].id);
    if Code(s.calls[a].id) == Code(s.calls[b].id) {
      CodeInjective(s.calls[a].id, s.calls[b].id);
    }
  }

  // ---- placeholders of one run ----

  /** The row's code is its own, or a placeholder that its process has counted already. */
  ghost predicate Spent(st: Store, id: nat) {
    id in st.table ==>
      st.table[id].code == Code(id)
      || exists pid: nat, count: nat :: st.table[id].code == Placeholder(pid, count) && count <= SeqOf(st, pid)
  }

  ghost predicate AllSpent(st: Store) {
    forall id: nat :: Spent(st, id)
  }

  lemma SpentMore(st: Store, later: Store, id: nat)
    requires Spent(st, id) && id in st.table && forall pid :: SeqOf(st, pid) <= SeqOf(later, pid)
    requires id in later.table && (later.table[id].code == st.table[id].code || later.table[id].code == Code(id))
    ensures Spent(later, id)
  {
    if later.table[id].code != Code(id) {
      var pid: nat, count: nat :| st.table[id].code == Placeholder(pid, count) && count <= SeqOf(st, pid);
      assert count <= SeqOf(later, pid);
    }
  }

  lemma InsertSpent(s: State, a: Action)
    requires AllSpent(s.store) && Enabled(s, a) && a.Insert?
    ensures AllSpent(Next(s, a).store)
  {
    var st, later := s.store, Next(s, a).store;
    forall id: nat ensures Spent(later, id) {
      assert Spent(st, id);
      if id in later.table && later.table[id].code == Placeholder(a.pid, SeqOf(st, a.pid) + 1) {
        assert SeqOf(later, a.pid) == SeqOf(st, a.pid) + 1;
      } else if id in st.table {
        SpentMore(st, later, id);
      }
    }
  }

  lemma NextSpent(s: State, a: Action)
    requires AllSpent(s.store) && Enabled(s, a) && !a.Restart?
    ensures AllSpent(Next(s, a).store)
  {
    var st, later := s.store, Next(s, a).store;
    if a.Insert? {
      InsertSpent(s, a);
    } else {
      forall id: nat ensures Spent(later, id) {
        assert Spent(st, id);
        if id in st.table {
          SpentMore(st, later, id);
        }
      }
    }
  }

  lemma {:induction false} AlwaysSpent(schedule: seq<Action>)
    requires forall k :: 0 <= k < |schedule| ==> !schedule[k].Restart?
    ensures AllSpent(Exec(schedule).store)
  {
    if schedule != [] {
      var before := schedule[..|schedule| - 1];
      assert forall k :: 0 <= k < |before| ==> before[k] == schedule[k];
      AlwaysSpent(before);
      if Enabled(Exec(before), schedule[|schedule| - 1]) {
        NextSpent(Exec(before), schedule[|schedule| - 1]);
      }
    }
  }

  /** Until a process is restarted (with the same process id), no INSERT meets a used placeholder: it can be
      refused for the width of the column or the end of the ids only. */
  lemma PlaceholdersAreFresh(schedule: seq<Action>, pid: nat)
    requires forall k :: 0 <= k < |schedule| ==> !schedule[k].Restart?
    ensures var st := Exec(schedule).store;
      !CodeInUse(st, Placeholder(pid, SeqOf(st, pid) + 1))
      && (CanInsert(st, pid) <==> |Placeholder(pid, SeqOf(st, pid) + 1)| <= 16 && st.nextId < TWO_TO_THE_64)
  {
    var st := Exec(schedule).store;
    var code := Placeholder(pid, SeqOf(st, pid) + 1);
    AlwaysSpent(schedule);
    forall id | id in st.table ensures st.table[id].code != code {
      assert Spent(st, id);
      CodeIsCanonical(id);
      assert code[3] == '_';
      forall other: nat, count: nat | st.table[id].code == Placeholder(other, count) && count <= SeqOf(st, other)
        ensures st.table[id].code != code
      {
        PlaceholdersDiffer(other, count, pid, SeqOf(st, pid) + 1);
      }
    }
  }

  /** A process that is restarted with its old id begins with its first placeholder again: the INSERT
      fails if the row that got it still has it. */
  lemma RestartedCollides(s: State, pid: nat, id: nat)
    requires id in s.store.table && s.store.table[id].code == Placeholder(pid, 1)
    ensures !CanInsert(Next(s, Restart(pid)).store, pid)
  {
    assert SeqOf(Next(s, Restart(pid)).store, pid) == 0;
    assert Next(s, Restart(pid)).store.table[id].code == Placeholder(pid, 1);
  }

  // ---- what the statements bring about ----

  /** A row of a call that may go on holds its URL; an applied UPDATE writes the code, an applied SETEX
      makes the cache answer with the URL. */
  lemma ShortenSteps(s: State, a: Action)
    requires Inv(s) && Enabled(s, a)
    ensures a.StartShorten? ==> Next(s, a).calls[a.call] == if a.url == "" then Failed else Inserting(a.url)
    ensures a.Insert? ==> var t, url := Next(s, a), s.calls[a.call].url;
      if a.outcome.Done? && CanInsert(s.store, a.pid) then
        t.calls[a.call].Updating? && t.calls[a.call].url == url && Stored(t.store, t.calls[a.call].id, url)
        && t.calls[a.call].id !in s.store.table
      else t.calls[a.call] == Failed
    ensures a.Update? ==> var t, pc := Next(s, a), s.calls[a.call];
      t.calls[a.call] == Caching(pc.id, pc.url, a.ok) && (a.ok ==> Selects(t.store, Code(pc.id), pc.id))
    ensures a.Cache? ==> var t, pc := Next(s, a), s.calls[a.call];
      t.calls[a.call] == Shortened(pc.id, pc.url, pc.updated) && (a.ok ==> Got(t.store, Code(pc.id)) == CStr(pc.url))
  {
    if a.Insert? {
      assert RowOk(s.store, s.store.nextId) && CallOk(s, a.call);
    } else if a.Update? {
      UpdateIsAllowed(s.store, s.calls[a.call].id);
    }
  }

  /** A redirect asks the cache, then the table, and fills the cache with what it found there. */
  lemma RedirectSteps(s: State, a: Action)
    requires Inv(s) && Enabled(s, a)
    ensures a.StartRedirect? ==> Next(s, a).calls[a.call] == Looking(a.code)
    ensures a.Look? ==> var t, code := Next(s, a), s.calls[a.call].code;
      t.calls[a.call] == (if a.ok && Got(s.store, code) != "" then Redirected(code, Some(Got(s.store, code))) else Querying(code))
    ensures a.Query? && a.row.None? ==> Next(s, a).calls[a.call] == Redirected(s.calls[a.call].code, None)
    ensures a.Query? && a.row.Some? ==> var t, code := Next(s, a), s.calls[a.call].code;
      t.calls[a.call].Backfilling? && t.calls[a.call].code == code && Means(s.store, code, t.calls[a.call].found)
    ensures a.Backfill? ==> var t, pc := Next(s, a), s.calls[a.call];
      t.calls[a.call] == Redirected(pc.code, NonEmpty(pc.found)) && (a.ok ==> Got(t.store, pc.code) == pc.found)
    ensures a.Evict? ==> a.code !in Next(s, a).store.cache && Next(s, a).calls == s.calls
  {
    if a.Query? && a.row.Some? {
      assert CallOk(s, a.call);
      SelectedIsOwn(s.store, s.calls[a.call].code, a.row.value);
    } else if a.Backfill? {
      assert CallOk(s, a.call) && CStr(s.calls[a.call].found) == s.calls[a.call].found;
    }
  }

  // ---- one call after the other ----

  datatype Reply = BadRequest | DatabaseError | Short(code: string)

  ghost predicate Coherent(st: Store) {
    TableOk(st) && forall code :: EntryOk(st, code)
  }

  /** ApiShorten, with the outcome of each of its statements. */
  function Shorten(st: Store, pid: nat, url: string, insert: Outcome, update: bool, cache: bool): (Store, Reply) {
    if url == "" then (st, BadRequest)
    else if insert.Refused? || !CanInsert(st, pid) then (Counted(st, pid), DatabaseError)
    else if insert.Unreported? then (Inserted(st, pid, url), DatabaseError)
    else
      var id, t := st.nextId, Inserted(st, pid, url);
      var u := if update && CanUpdate(t, id) then Updated(t, id) else t;
      (if cache then Cached(u, Code(id), url) else u, Short(Code(id)))
  }

  /** Where Redirect leads when none of its statements fails. */
  ghost function Found(st: Store, code: string): Option<string> {
    if Got(st, code) != "" then Some(Got(st, code))
    else if exists id: nat :: Selects(st, code, id) then
      var id: nat :| Selects(st, code, id);
      NonEmpty(CStr(st.table[id].url))
    else None
  }

  /** A redirect without failures leads to the URL of the row that owns the code, up to its first
      NUL, if the code was written to the row or to the cache; otherwise to 404. */
  lemma FoundMeaning(st: Store, id: nat)
    requires Coherent(st) && id in st.table
    ensures Found(st, Code(id)) ==
      if st.table[id].code == Code(id) || Code(id) in st.cache then NonEmpty(CStr(st.table[id].url)) else None
  {
    var code := Code(id);
    OwnCode(st, id);
    CodeIsCanonical(id);
    assert EntryOk(st, code);
    forall x: nat | Selects(st, code, x) ensures x == id {
      SelectedIsOwn(st, code, x);
    }
    if st.table[id].code == code {
      assert Selects(st, code, id);
    }
  }

  lemma ShortenKeeps(st: Store, pid: nat, url: string, insert: Outcome, update: bool, cache: bool)
    requires Coherent(st)
    ensures Coherent(Shorten(st, pid, url, insert, update, cache).0)
  {
    var id, t := st.nextId, Inserted(st, pid, url);
    SameTable(st, Counted(st, pid));
    SameCache(st, Counted(st, pid));
    if url != "" && !insert.Refused? && CanInsert(st, pid) {
      InsertTable(st, pid, url);
      SameCache(st, t);
      UpdateTable(t, id);
      var u := if update && CanUpdate(t, id) then Updated(t, id) else t;
      SameCache(t, u);
      OwnCode(u, id);
      CachedTable(u, Code(id), url);
      CachedOk(u, Code(id), url);
    }
  }

  /** Right after ApiShorten answered, its code leads back to the URL exactly if its UPDATE or its SETEX
      was applied.  It answers in the same way when neither was, and then the link is dead; and
      LinksThatLast says that the SETEX alone is not enough for long. */
  lemma ShortenThenRedirect(st: Store, pid: nat, url: string, insert: Outcome, update: bool, cache: bool)
    requires Coherent(st) && Shorten(st, pid, url, insert, update, cache).1.Short?
    ensures var (later, reply) := Shorten(st, pid, url, insert, update, cache);
      Found(later, reply.code) == if update || cache then NonEmpty(CStr(url)) else None
  {
    var (later, reply) := Shorten(st, pid, url, insert, update, cache);
    var id, t := st.nextId, Inserted(st, pid, url);
    ShortenKeeps(st, pid, url, insert, update, cache);
    InsertTable(st, pid, url);
    UpdateIsAllowed(t, id);
    FreshCode(st);
    CodeIsCanonical(id);
    assert Placeholder(pid, SeqOf(st, pid) + 1)[3] == '_';
    FoundMeaning(later, id);
  }

  /** What ApiShorten answers, and what it leaves behind: a short code only for a new row that holds the
      URL under the id that the code stands for, and nothing but that row, at most, changes in the
      table. */
  lemma ShortenMeaning(st: Store, pid: nat, url: string, insert: Outcome, update: bool, cache: bool)
    requires Coherent(st)
    ensures var (later, reply) := Shorten(st, pid, url, insert, update, cache);
      && (reply == BadRequest <==> url == "")
      && (reply == BadRequest ==> later == st)
      && (reply.Short? <==> url != "" && insert.Done? && CanInsert(st, pid))
      && (reply.Short? ==>
            && Value(reply.code) !in st.table && Stored(later, Value(reply.code), url)
            && later.table - {Value(reply.code)} == st.table)
      && (reply == DatabaseError ==> later.cache == st.cache && (insert.Refused? ==> later.table == st.table))
      && (insert.Unreported? && url != "" && CanInsert(st, pid) ==>
            Stored(later, st.nextId, url) && later.table - {st.nextId} == st.table)
  {
    var (later, reply) := Shorten(st, pid, url, insert, update, cache);
    assert RowOk(st, st.nextId);
    if reply.Short? {
      DecodeEncode(st.nextId);
    }
    if reply != BadRequest && !insert.Refused? && CanInsert(st, pid) {
      OnlyRowIsNew(st.table, later.table, st.nextId);
    }
  }

  lemma OnlyRowIsNew(table: map<nat, Row>, later: map<nat, Row>, id: nat)
    requires id !in table && later.Keys == table.Keys + {id} && forall x :: x in table ==> later[x] == table[x]
    ensures later - {id} == table
  {
    assert (later - {id}).Keys == table.Keys;
  }

  lemma FreshCode(st: Store)
    requires Coherent(st)
    ensures Code(st.nextId) !in st.cache
  {
    assert EntryOk(st, Code(st.nextId));
    if Code(st.nextId) in st.cache {
      assert RowOk(st, Value(Code(st.nextId)));
      CodeInjective(st.nextId, Value(Code(st.nextId)));
    }
  }

  // ---- how long a link lasts ----

  /** The row of a call that is through with its UPDATE has its code exactly if that was applied. */
  ghost predicate UpdateKnown(s: State, call: CallId) {
    call in s.calls ==>
      match s.calls[call]
      case Updating(id, _) => !Selects(s.store, Code(id), id)
      case Caching(id, _, updated) => updated <==> Selects(s.store, Code(id), id)
      case Shortened(id, _, updated) => updated <==> Selects(s.store, Code(id), id)
      case _ => true
  }

  lemma InsertedHasNoCode(st: Store, pid: nat, url: string)
    ensures !Selects(Inserted(st, pid, url), Code(st.nextId), st.nextId)
  {
    CodeIsCanonical(st.nextId);
    assert Placeholder(pid, SeqOf(st, pid) + 1)[3] == '_';
  }

  /** Another call only changes the rows of its own ids. */
  lemma NextUpdateKnown(s: State, a: Action, call: CallId)
    requires Inv(s) && Enabled(s, a) && UpdateKnown(s, call)
    requires forall other: CallId :: IdsDiffer(s, other, call)
    ensures UpdateKnown(Next(s, a), call)
  {
    match a
    case Insert(x, pid, outcome) => InsertUpdateKnown(s, x, pid, outcome, call);
    case Update(x, ok) => UpdateUpdateKnown(s, x, ok, call);
    case _ => assert Next(s, a).store.table == s.store.table;
  }

  lemma InsertUpdateKnown(s: State, x: CallId, pid: nat, outcome: Outcome, call: CallId)
    requires Inv(s) && Enabled(s, Insert(x, pid, outcome)) && UpdateKnown(s, call)
    ensures UpdateKnown(Next(s, Insert(x, pid, outcome)), call)
  {
    InsertedHasNoCode(s.store, pid, s.calls[x].url);
    if call in s.calls && IdOf(s.calls[call]).Some? {
      KnownId(s, call);
    }
  }

  lemma UpdateUpdateKnown(s: State, x: CallId, ok: bool, call: CallId)
    requires Inv(s) && Enabled(s, Update(x, ok)) && UpdateKnown(s, call) && IdsDiffer(s, x, call)
    ensures UpdateKnown(Next(s, Update(x, ok)), call)
  {
    UpdateIsAllowed(s.store, s.calls[x].id);
  }

  lemma {:induction false} AlwaysUpdateKnown(schedule: seq<Action>, call: CallId)
    ensures UpdateKnown(Exec(schedule), call)
  {
    if schedule != [] {
      var s, a := Exec(schedule[..|schedule| - 1]), schedule[|schedule| - 1];
      AlwaysUpdateKnown(schedule[..|schedule| - 1], call);
      AlwaysInv(schedule[..|schedule| - 1]);
      if Enabled(s, a) {
        forall other: CallId ensures IdsDiffer(s, other, call) {
          AlwaysIdsDiffer(schedule[..|schedule| - 1], other, call);
        }
        NextUpdateKnown(s, a, call);
      }
    }
  }

  lemma ExecSnoc(all: seq<Action>)
    requires all != []
    ensures Exec(all) == After(Exec(all[..|all| - 1]), all[|all| - 1])
  {
  }

  lemma ExecMore(schedule: seq<Action>, more: seq<Action>)
    requires more != []
    ensures Exec(schedule + more) == After(Exec(schedule + more[..|more| - 1]), more[|more| - 1])
  {
    var all, init := schedule + more, schedule + more[..|more| - 1];
    assert all[..|all| - 1] == init && all[|all| - 1] == more[|more| - 1];
    ExecSnoc(all);
  }

  /** A call that has been answered stays as it is. */
  lemma {:induction false} AnsweredStays(schedule: seq<Action>, more: seq<Action>, call: CallId)
    requires call in Exec(schedule).calls && Exec(schedule).calls[call].Shortened?
    ensures call in Exec(schedule + more).calls && Exec(schedule + more).calls[call] == Exec(schedule).calls[call]
    decreases |more|
  {
    if more == [] {
      assert schedule + more == schedule;
    } else {
      AnsweredStays(schedule, more[..|more| - 1], call);
      ExecMore(schedule, more);
    }
  }

  /** Where the code of an answered call leads at the moment. */
  lemma LinkNow(schedule: seq<Action>, call: CallId)
    requires call in Exec(schedule).calls && Exec(schedule).calls[call].Shortened?
    ensures var s := Exec(schedule); var pc := s.calls[call];
      Found(s.store, Code(pc.id)) ==
        if pc.updated || Code(pc.id) in s.store.cache then NonEmpty(CStr(pc.url)) else None
  {
    var s := Exec(schedule);
    AlwaysInv(schedule);
    AlwaysUpdateKnown(schedule, call);
    assert CallOk(s, call) && UpdateKnown(s, call);
    FoundMeaning(s.store, s.calls[call].id);
  }

  /** Nobody caches the code of a row that never got it: the call itself is through, and a redirect
      fills the cache only with codes it selected. */
  lemma NextNotCached(s: State, a: Action, call: CallId)
    requires Inv(s) && Enabled(s, a) && UpdateKnown(s, call) && forall other: CallId :: IdsDiffer(s, other, call)
    requires call in s.calls && s.calls[call].Shortened? && !s.calls[call].updated
    requires Code(s.calls[call].id) !in s.store.cache
    ensures Code(s.calls[call].id) !in Next(s, a).store.cache
  {
    var id := s.calls[call].id;
    assert CallOk(s, call);
    OwnCode(s.store, id);
    match a
    case Cache(x, _) =>
      assert IdsDiffer(s, x, call) && CallOk(s, x);
      OwnCode(s.store, s.calls[x].id);
    case Backfill(x, _) => assert CallOk(s, x);
    case _ =>
  }

  lemma {:induction false} NeverCachedAgain(schedule: seq<Action>, more: seq<Action>, call: CallId)
    requires call in Exec(schedule).calls && Exec(schedule).calls[call].Shortened? && !Exec(schedule).calls[call].updated
    requires Code(Exec(schedule).calls[call].id) !in Exec(schedule).store.cache
    ensures Code(Exec(schedule).calls[call].id) !in Exec(schedule + more).store.cache
    decreases |more|
  {
    if more == [] {
      assert schedule + more == schedule;
    } else {
      var init := more[..|more| - 1];
      NeverCachedAgain(schedule, init, call);
      AnsweredStays(schedule, init, call);
      ExecMore(schedule, more);
      AlwaysInv(schedule + init);
      AlwaysUpdateKnown(schedule + init, call);
      forall other: CallId ensures IdsDiffer(Exec(schedule + init), other, call) {
        AlwaysIdsDiffer(schedule + init, other, call);
      }
      if Enabled(Exec(schedule + init), more[|more| - 1]) {
        NextNotCached(Exec(schedule + init), more[|more| - 1], call);
      }
    }
  }

  /** The cache forgets an entry: by its time to live, or under memory pressure. */
  lemma Evicted(s: State, code: string)
    ensures code !in After(s, Evict(code)).store.cache && After(s, Evict(code)).calls == s.calls
  {
  }

  lemma EvictEnds(schedule: seq<Action>, call: CallId, code: string)
    requires call in Exec(schedule).calls && Exec(schedule).calls[call].Shortened? && !Exec(schedule).calls[call].updated
    requires code == Code(Exec(schedule).calls[call].id)
    ensures Found(Exec(schedule + [Evict(code)]).store, code) == None
  {
    ExecMore(schedule, [Evict(code)]);
    assert schedule + [Evict(code)][..0] == schedule;
    Evicted(Exec(schedule), code);
    LinkNow(schedule + [Evict(code)], call);
  }

  /** Whatever happens afterwards, the code that ApiShorten answered leads back to the URL for ever
      if and only if its UPDATE was applied; and it is dead for ever if and only if it was not and the
      cache does not hold the code either (or the URL begins with a NUL). */
  lemma LinksThatLast(schedule: seq<Action>, call: CallId)
    requires call in Exec(schedule).calls && Exec(schedule).calls[call].Shortened?
    ensures var pc := Exec(schedule).calls[call];
      (forall more :: Found(Exec(schedule + more).store, Code(pc.id)) == Some(CStr(pc.url)))
      <==> pc.updated && CStr(pc.url) != ""
    ensures var pc := Exec(schedule).calls[call];
      (forall more :: Found(Exec(schedule + more).store, Code(pc.id)) == None)
      <==> CStr(pc.url) == "" || (!pc.updated && Code(pc.id) !in Exec(schedule).store.cache)
  {
    var pc := Exec(schedule).calls[call];
    forall more
      ensures pc.updated ==> Found(Exec(schedule + more).store, Code(pc.id)) == NonEmpty(CStr(pc.url))
      ensures CStr(pc.url) == "" || (!pc.updated && Code(pc.id) !in Exec(schedule).store.cache)
        ==> Found(Exec(schedule + more).store, Code(pc.id)) == None
    {
      AnsweredStays(schedule, more, call);
      LinkNow(schedule + more, call);
      if !pc.updated && Code(pc.id) !in Exec(schedule).store.cache {
        NeverCachedAgain(schedule, more, call);
      }
    }
    if !pc.updated {
      EvictEnds(schedule, call, Code(pc.id));
    }
    assert schedule + [] == schedule;
    LinkNow(schedule, call);
  }

  // ---- the handlers over the shared stores ----

  class Shortener {
    var table: map<nat, Row>
    var nextId: nat
    var cache: map<string, string>
    var seqs: map<nat, nat>

    ghost function View(): Store
      reads this
    {
      Store(table, nextId, cache, seqs)
    }

    constructor ()
      ensures Coherent(View()) && View() == Init().store
    {
      table, nextId, cache, seqs := map[], 1, map[], map[];
    }

    /** `INSERT INTO short_url ...` and mysql_insert_id. */
    method Insert(pid: nat, url: string, outcome: Outcome) returns (id: Option<nat>)
      modifies this`table, this`nextId, this`seqs
      ensures var st := old(View());
        && id == (if outcome.Done? && CanInsert(st, pid) then Some(st.nextId) else None)
        && View() == if !outcome.Refused? && CanInsert(st, pid) then Inserted(st, pid, url) else Counted(st, pid)
    {
      var count := (if pid in seqs then seqs[pid] else 0) + 1;
      var code := Placeholder(pid, count);
      var inUse := exists other :: other in table && table[other].code == code;
      seqs := seqs[pid := count];
      if outcome.Refused? || CODE_WIDTH < |code| || inUse || nextId >= TWO_TO_THE_64 {
        return None;
      }
      id := if outcome.Done? then Some(nextId) else None;
      table, nextId := table[nextId := Row(code, url)], nextId + 1;
    }

    /** `UPDATE short_url SET code=... WHERE id=...`; a failure is only logged. */
    method Update(id: Id, code: string, ok: bool)
      requires id in table && code == Code(id)
      modifies this`table
      ensures View() == if ok && CanUpdate(old(View()), id) then Updated(old(View()), id) else old(View())
    {
      if ok && forall other :: other in table && other != id ==> table[other].code != code {
        table := table[id := table[id].(code := code)];
      }
    }

    /** Redis_Client::Set */
    method Set(code: string, url: string, ok: bool)
      modifies this`cache
      ensures View() == if ok then Cached(old(View()), code, url) else old(View())
    {
      if ok {
        cache := cache[code := CStr(url)];
      }
    }

    method ApiShorten(pid: nat, url: string, insert: Outcome, updateOk: bool, cacheOk: bool) returns (reply: Reply)
      requires Coherent(View())
      modifies this
      ensures Coherent(View())
      ensures (View(), reply) == Shorten(old(View()), pid, url, insert, updateOk, cacheOk)
    {
      ShortenKeeps(View(), pid, url, insert, updateOk, cacheOk);
      if url == "" {
        return BadRequest;
      }
      var id := Insert(pid, url, insert);
      if id.None? {
        return DatabaseError;
      }
      var code := Encode(id.value);
      Update(id.value, code, updateOk);
      Set(code, url, cacheOk);
      reply := Short(code);
    }

    /** `SELECT long_url FROM short_url WHERE code=... LIMIT 1` */
    method Select(code: string) returns (row: Option<nat>)
      requires Coherent(View()) && IsNumeral(code)
      ensures row.Some? ==> Owns(View(), code, row.value) && Value(code) == row.value
      ensures row.Some? ==> forall x: nat :: Selects(View(), code, x) <==> x == row.value
      ensures row.None? ==> forall x: nat :: !Selects(View(), code, x)
    {
      row := None;
      if id: nat :| id in table && table[id].code == code {
        SelectedIsOwn(View(), code, id);
        OnlyRow(View(), code, id);
        row := Some(id);
      } else {
        forall x: nat ensures !Selects(View(), code, x) {
        }
      }
    }

    /** The answer and the refill; None is the answer 404. */
    method Redirect(code: string, getOk: bool, queryOk: bool, setOk: bool) returns (location: Option<string>)
      requires Coherent(View()) && IsNumeral(code)
      modifies this`cache
      ensures Coherent(View())
      ensures location.Some? ==> Means(View(), code, location.value) && location.value != ""
      ensures getOk && queryOk ==> location == Found(old(View()), code)
      ensures setOk && queryOk && (getOk ==> Got(old(View()), code) == "") && Selects(View(), code, Value(code)) ==>
        code in cache && Means(View(), code, cache[code])
      ensures cache == old(cache) || (code in cache && cache == old(cache)[code := cache[code]])
    {
      assert EntryOk(View(), code);
      if getOk && code in cache && cache[code] != "" {
        return Some(cache[code]);
      }
      location := None;
      if queryOk {
        var row := Select(code);
        if row.Some? {
          ghost var st := View();
          var url := table[row.value].url;
          assert Selects(st, code, row.value);
          CachedTable(st, code, url);
          CachedOk(st, code, url);
          Set(code, url, setOk);
          location := NonEmpty(CStr(url));
        }
      }
    }
  }

  lemma OnlyRow(st: Store, code: string, id: nat)
    requires TableOk(st) && IsNumeral(code) && Selects(st, code, id)
    ensures forall x: nat :: Selects(st, code, x) <==> x == id
  {
    forall x: nat | Selects(st, code, x) ensures x == id {
      SelectedIsOwn(st, code, x);
      SelectedIsOwn(st, code, id);
    }
  }
}
