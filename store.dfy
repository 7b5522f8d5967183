/**
  The tables behind Worker, WorkType and WorkEntry and the rules the schema
  enforces on them: unique Telegram ids and work-type codes, at most one
  entry per (worker, work type, date), protected references from entries to
  workers and work types, and non-negative fixed-point amounts. Writes that
  would break a rule are rejected and leave every table as it was.
 */
module Store {
  import opened Wrappers
  import opened Dates
  import opened Models

  datatype StoreError =
    | DuplicateTelegramId
    | DuplicateCode
    | NegativeRate
    | RateTooLarge
    | UnknownWorker
    | UnknownWorkType
    | NegativeQuantity
    | QuantityTooLarge
    | DuplicateEntry
    | NotFound
    | ProtectedWorker
    | ProtectedWorkType

  function WorkerPks(ws: seq<Worker>): set<nat> {
    set w | w in ws :: w.pk
  }

  function TelegramIds(ws: seq<Worker>): set<int> {
    set w | w in ws :: w.telegramId
  }

  function WorkTypePks(ts: seq<WorkType>): set<nat> {
    set t | t in ts :: t.pk
  }

  function Codes(ts: seq<WorkType>): set<string> {
    set t | t in ts :: t.code
  }

  function EntryPks(es: seq<WorkEntry>): set<nat> {
    set e | e in es :: e.pk
  }

  /** The fields of the `uniq_worker_worktype_day` constraint. */
  function EntryKey(e: WorkEntry): (nat, nat, Day) {
    (e.worker, e.workType, e.workDate)
  }

  function EntryKeys(es: seq<WorkEntry>): set<(nat, nat, Day)> {
    set e | e in es :: EntryKey(e)
  }

  predicate WorkersKeyed(ws: seq<Worker>) {
    forall i, j :: 0 <= i < j < |ws| ==>
      ws[i].pk != ws[j].pk && ws[i].telegramId != ws[j].telegramId
  }

  predicate WorkTypesKeyed(ts: seq<WorkType>) {
    && (forall i, j :: 0 <= i < j < |ts| ==> ts[i].pk != ts[j].pk && ts[i].code != ts[j].code)
    && (forall t :: t in ts ==> RateFits(t.defaultRate))
  }

  /** Primary keys are unique and so is (worker, work type, date). */
  predicate EntriesKeyed(es: seq<WorkEntry>) {
    forall i, j :: 0 <= i < j < |es| ==> es[i].pk != es[j].pk && EntryKey(es[i]) != EntryKey(es[j])
  }

  predicate EntriesValid(ws: seq<Worker>, ts: seq<WorkType>, es: seq<WorkEntry>) {
    && EntriesKeyed(es)
    && (forall e :: e in es ==>
          QuantityFits(e.quantity) && e.worker in WorkerPks(ws) && e.workType in WorkTypePks(ts))
  }

  /** Every rule of the schema holds of the three tables. */
  predicate Consistent(ws: seq<Worker>, ts: seq<WorkType>, es: seq<WorkEntry>) {
    WorkersKeyed(ws) && WorkTypesKeyed(ts) && EntriesValid(ws, ts, es)
  }

  function WorkerRejection(ws: seq<Worker>, telegramId: int): Option<StoreError> {
    if telegramId in TelegramIds(ws) then Some(DuplicateTelegramId) else None
  }

  function WorkTypeRejection(ts: seq<WorkType>, code: string, rate: int): Option<StoreError> {
    if rate < 0 then Some(NegativeRate)
    else if rate >= RateLimit then Some(RateTooLarge)
    else if code in Codes(ts) then Some(DuplicateCode)
    else None
  }

  /** Field checks first (references, then the quantity), the uniqueness constraint last. */
  function EntryRejection(ws: seq<Worker>, ts: seq<WorkType>, es: seq<WorkEntry>,
                          worker: nat, workType: nat, date: Day, quantity: int): Option<StoreError>
  {
    if worker !in WorkerPks(ws) then Some(UnknownWorker)
    else if workType !in WorkTypePks(ts) then Some(UnknownWorkType)
    else if quantity < 0 then Some(NegativeQuantity)
    else if quantity >= QuantityLimit then Some(QuantityTooLarge)
    else if (worker, workType, date) in EntryKeys(es) then Some(DuplicateEntry)
    else None
  }

  predicate ReferencesWorker(es: seq<WorkEntry>, pk: nat) {
    exists e :: e in es && e.worker == pk
  }

  predicate ReferencesWorkType(es: seq<WorkEntry>, pk: nat) {
    exists e :: e in es && e.workType == pk
  }

  /** `on_delete=PROTECT`: a worker still referenced by an entry cannot go. */
  function WorkerDeletion(ws: seq<Worker>, es: seq<WorkEntry>, pk: nat): Option<StoreError> {
    if pk !in WorkerPks(ws) then Some(NotFound)
    else if ReferencesWorker(es, pk) then Some(ProtectedWorker)
    else None
  }

  function WorkTypeDeletion(ts: seq<WorkType>, es: seq<WorkEntry>, pk: nat): Option<StoreError> {
    if pk !in WorkTypePks(ts) then Some(NotFound)
    else if ReferencesWorkType(es, pk) then Some(ProtectedWorkType)
    else None
  }

  function WithoutWorker(ws: seq<Worker>, pk: nat): (r: seq<Worker>)
    ensures forall w :: w in r <==> w in ws && w.pk != pk
    ensures WorkersKeyed(ws) ==> WorkersKeyed(r)
  {
    if ws == [] then []
    else if ws[0].pk == pk then WithoutWorker(ws[1..], pk)
    else [ws[0]] + WithoutWorker(ws[1..], pk)
  }

  function WithoutWorkType(ts: seq<WorkType>, pk: nat): (r: seq<WorkType>)
    ensures forall t :: t in r <==> t in ts && t.pk != pk
    ensures WorkTypesKeyed(ts) ==> WorkTypesKeyed(r)
  {
    if ts == [] then []
    else
      assert WorkTypesKeyed(ts) ==> WorkTypesKeyed(ts[1..]);
      if ts[0].pk == pk then WithoutWorkType(ts[1..], pk)
      else [ts[0]] + WithoutWorkType(ts[1..], pk)
  }

  function WithoutEntry(es: seq<WorkEntry>, pk: nat): (r: seq<WorkEntry>)
    ensures forall e :: e in r <==> e in es && e.pk != pk
    ensures EntriesKeyed(es) ==> EntriesKeyed(r)
  {
    if es == [] then []
    else if es[0].pk == pk then WithoutEntry(es[1..], pk)
    else [es[0]] + WithoutEntry(es[1..], pk)
  }

  /** The work log's three tables, with the next primary key of each. */
  class WorkLog {
    var workers: seq<Worker>
    var workTypes: seq<WorkType>
    var entries: seq<WorkEntry>
    var nextWorkerPk: nat
    var nextWorkTypePk: nat
    var nextEntryPk: nat

    ghost predicate Valid()
      reads this
    {
      && Consistent(workers, workTypes, entries)
      && (forall w :: w in workers ==> w.pk < nextWorkerPk)
      && (forall t :: t in workTypes ==> t.pk < nextWorkTypePk)
      && (forall e :: e in entries ==> e.pk < nextEntryPk)
    }

    constructor ()
      ensures Valid()
      ensures workers == [] && workTypes == [] && entries == []
    {
      workers, workTypes, entries := [], [], [];
      nextWorkerPk, nextWorkTypePk, nextEntryPk := 1, 1, 1;
    }

    /** Creates a worker, unless its Telegram id is already taken. */
    method AddWorker(telegramId: int, fullName: string, username: Option<string>, isActive: Option<bool>)
      returns (r: Result<nat, StoreError>)
      requires Valid()
      modifies this
      ensures Valid()
      ensures workTypes == old(workTypes) && entries == old(entries)
      ensures r.Failure? <==> telegramId in TelegramIds(old(workers))
      ensures r.Failure? ==> r.error == DuplicateTelegramId && unchanged(this)
      ensures r.Success? ==>
                && r.value !in WorkerPks(old(workers))
                && workers == old(workers)
                     + [Worker(r.value, telegramId, fullName, username, if isActive.Some? then isActive.value else true)]
    {
      var rejected := WorkerRejection(workers, telegramId);
      if rejected.Some? {
        return Failure(rejected.value);
      }
      var pk := nextWorkerPk;
      var active := if isActive.Some? then isActive.value else true;
      workers := workers + [Worker(pk, telegramId, fullName, username, active)];
      nextWorkerPk := nextWorkerPk + 1;
      r := Success(pk);
    }

    /** Creates a work type; an absent unit is `шт`, an absent rate is 0 and an absent
        active flag is true. */
    method AddWorkType(code: string, name: string, unit: Option<string>, defaultRate: Option<int>,
                       isActive: Option<bool>)
      returns (r: Result<nat, StoreError>)
      requires Valid()
      modifies this
      ensures Valid()
      ensures workers == old(workers) && entries == old(entries)
      ensures var u := if unit.Some? then unit.value else DefaultUnit;
              var rate := if defaultRate.Some? then defaultRate.value else 0;
              var active := if isActive.Some? then isActive.value else true;
              var rejected := WorkTypeRejection(old(workTypes), code, rate);
              && (r.Failure? <==> rejected.Some?)
              && (r.Failure? ==> r.error == rejected.value && unchanged(this))
              && (r.Success? ==>
                    && r.value !in WorkTypePks(old(workTypes))
                    && workTypes == old(workTypes) + [WorkType(r.value, code, name, u, active, rate)])
    {
      var u := if unit.Some? then unit.value else DefaultUnit;
      var rate := if defaultRate.Some? then defaultRate.value else 0;
      var active := if isActive.Some? then isActive.value else true;
      var rejected := WorkTypeRejection(workTypes, code, rate);
      if rejected.Some? {
        return Failure(rejected.value);
      }
      var pk := nextWorkTypePk;
      workTypes := workTypes + [WorkType(pk, code, name, u, active, rate)];
      nextWorkTypePk := nextWorkTypePk + 1;
      r := Success(pk);
    }

    /** Records work done, unless a reference is dangling, the quantity is out of
        range, or the worker already has an entry of that type on that date. An absent
        date is `today`, the local date the clock gives. */
    method AddEntry(worker: nat, workType: nat, workDate: Option<Day>, today: Day, quantity: int,
                    comment: Option<string>, sourceChatId: Option<int>, sourceMessageId: Option<int>)
      returns (r: Result<nat, StoreError>)
      requires Valid()
      modifies this
      ensures Valid()
      ensures workers == old(workers) && workTypes == old(workTypes)
      ensures var date := if workDate.Some? then workDate.value else today;
              var rejected := EntryRejection(old(workers), old(workTypes), old(entries), worker, workType, date, quantity);
              && (r.Failure? <==> rejected.Some?)
              && (r.Failure? ==> r.error == rejected.value && unchanged(this))
              && (r.Success? ==>
                    && r.value !in EntryPks(old(entries))
                    && entries == old(entries)
                         + [WorkEntry(r.value, worker, workType, date, quantity, comment, sourceChatId, sourceMessageId)])
    {
      var date := if workDate.Some? then workDate.value else today;
      var rejected := EntryRejection(workers, workTypes, entries, worker, workType, date, quantity);
      if rejected.Some? {
        return Failure(rejected.value);
      }
      var pk := nextEntryPk;
      var e := WorkEntry(pk, worker, workType, date, quantity, comment, sourceChatId, sourceMessageId);
      AddEntryKeepsKeys(entries, e);
      entries := entries + [e];
      nextEntryPk := nextEntryPk + 1;
      r := Success(pk);
    }

    /** Deletes a worker no entry refers to. */
    method DeleteWorker(pk: nat) returns (rejected: Option<StoreError>)
      requires Valid()
      modifies this
      ensures Valid()
      ensures rejected == WorkerDeletion(old(workers), old(entries), pk)
      ensures rejected.Some? ==> unchanged(this)
      ensures rejected.None? ==>
                && workers == WithoutWorker(old(workers), pk)
                && workTypes == old(workTypes) && entries == old(entries)
    {
      rejected := WorkerDeletion(workers, entries, pk);
      if rejected.None? {
        workers := WithoutWorker(workers, pk);
      }
    }

    /** Deletes a work type no entry refers to. */
    method DeleteWorkType(pk: nat) returns (rejected: Option<StoreError>)
      requires Valid()
      modifies this
      ensures Valid()
      ensures rejected == WorkTypeDeletion(old(workTypes), old(entries), pk)
      ensures rejected.Some? ==> unchanged(this)
      ensures rejected.None? ==>
                && workTypes == WithoutWorkType(old(workTypes), pk)
                && workers == old(workers) && entries == old(entries)
    {
      rejected := WorkTypeDeletion(workTypes, entries, pk);
      if rejected.None? {
        workTypes := WithoutWorkType(workTypes, pk);
      }
    }

    /** Deletes an entry; nothing refers to entries, so only a missing key is rejected. */
    method DeleteEntry(pk: nat) returns (rejected: Option<StoreError>)
      requires Valid()
      modifies this
      ensures Valid()
      ensures rejected.Some? <==> pk !in EntryPks(old(entries))
      ensures rejected.Some? ==> rejected.value == NotFound && unchanged(this)
      ensures rejected.None? ==>
                && entries == WithoutEntry(old(entries), pk)
                && workers == old(workers) && workTypes == old(workTypes)
    {
      if pk !in EntryPks(entries) {
        return Some(NotFound);
      }
      entries := WithoutEntry(entries, pk);
      rejected := None;
    }
  }

  /** An entry whose key is new keeps the entry keys unique. */
  lemma AddEntryKeepsKeys(es: seq<WorkEntry>, e: WorkEntry)
    requires EntriesKeyed(es)
    requires e.pk !in EntryPks(es) && EntryKey(e) !in EntryKeys(es)
    ensures EntriesKeyed(es + [e])
  {
    var es' := es + [e];
    forall i, j | 0 <= i < j < |es'|
      ensures es'[i].pk != es'[j].pk && EntryKey(es'[i]) != EntryKey(es'[j])
    {
      if j == |es| {
        assert es'[i] in es;
      }
    }
  }

  /** A new worker is refused exactly when adding it would repeat a Telegram id. */
  lemma WorkerRejectedIffInvalid(ws: seq<Worker>, w: Worker)
    requires WorkersKeyed(ws) && w.pk !in WorkerPks(ws)
    ensures WorkerRejection(ws, w.telegramId).None? <==> WorkersKeyed(ws + [w])
  {
    var ws' := ws + [w];
    if WorkerRejection(ws, w.telegramId).None? {
      forall i, j | 0 <= i < j < |ws'|
        ensures ws'[i].pk != ws'[j].pk && ws'[i].telegramId != ws'[j].telegramId
      {
        if j == |ws| {
          assert ws'[i] in ws;
        }
      }
    } else {
      var v :| v in ws && v.telegramId == w.telegramId;
      var i :| 0 <= i < |ws| && ws[i] == v;
      assert ws'[i].telegramId == ws'[|ws|].telegramId;
    }
  }

  /** A new work type is refused exactly when adding it would repeat a code or give
      it a rate outside 0 to 99999999.99. */
  lemma WorkTypeRejectedIffInvalid(ts: seq<WorkType>, t: WorkType)
    requires WorkTypesKeyed(ts) && t.pk !in WorkTypePks(ts)
    ensures WorkTypeRejection(ts, t.code, t.defaultRate).None? <==> WorkTypesKeyed(ts + [t])
  {
    var ts' := ts + [t];
    if WorkTypeRejection(ts, t.code, t.defaultRate).None? {
      forall i, j | 0 <= i < j < |ts'| ensures ts'[i].pk != ts'[j].pk && ts'[i].code != ts'[j].code {
        if j == |ts| {
          assert ts'[i] in ts;
        }
      }
    } else if t.code in Codes(ts) && RateFits(t.defaultRate) {
      var v :| v in ts && v.code == t.code;
      var i :| 0 <= i < |ts| && ts[i] == v;
      assert ts'[i].code == ts'[|ts|].code;
    } else {
      assert t in ts';
    }
  }

  /** A new entry is refused exactly when adding it would break a rule: a dangling
      reference, a quantity outside 0 to 999999999.999, or a second entry for the same
      worker, work type and date. */
  lemma EntryRejectedIffInvalid(ws: seq<Worker>, ts: seq<WorkType>, es: seq<WorkEntry>, e: WorkEntry)
    requires EntriesValid(ws, ts, es) && e.pk !in EntryPks(es)
    ensures var accepted := EntryRejection(ws, ts, es, e.worker, e.workType, e.workDate, e.quantity).None?;
      accepted <==> EntriesValid(ws, ts, es + [e])
  {
    var es' := es + [e];
    if EntryRejection(ws, ts, es, e.worker, e.workType, e.workDate, e.quantity).None? {
      AddEntryKeepsKeys(es, e);
    } else if EntryKey(e) in EntryKeys(es) {
      var v :| v in es && EntryKey(v) == EntryKey(e);
      var i :| 0 <= i < |es| && es[i] == v;
      assert EntryKey(es'[i]) == EntryKey(es'[|es|]);
    } else {
      assert e in es';
    }
  }

  /** No two stored entries share a worker, a work type and a date. */
  lemma OneEntryPerWorkerTypeAndDay(ws: seq<Worker>, ts: seq<WorkType>, es: seq<WorkEntry>, a: WorkEntry, b: WorkEntry)
    requires Consistent(ws, ts, es) && a in es && b in es
    requires a.worker == b.worker && a.workType == b.workType && a.workDate == b.workDate
    ensures a == b
  {
    var i :| 0 <= i < |es| && es[i] == a;
    var j :| 0 <= j < |es| && es[j] == b;
    assert EntryKey(es[i]) == EntryKey(es[j]);
  }

  /** Deleting a worker succeeds exactly when it exists and the tables stay consistent
      without it: a referenced worker is kept. */
  lemma WorkerDeletionIffConsistent(ws: seq<Worker>, ts: seq<WorkType>, es: seq<WorkEntry>, pk: nat)
    requires Consistent(ws, ts, es)
    ensures var accepted := WorkerDeletion(ws, es, pk).None?;
      accepted <==> pk in WorkerPks(ws) && Consistent(WithoutWorker(ws, pk), ts, es)
  {
    var ws' := WithoutWorker(ws, pk);
    if pk in WorkerPks(ws) && ReferencesWorker(es, pk) {
      var e :| e in es && e.worker == pk;
      assert e.worker !in WorkerPks(ws');
    }
  }

  /** The same for work types. */
  lemma WorkTypeDeletionIffConsistent(ws: seq<Worker>, ts: seq<WorkType>, es: seq<WorkEntry>, pk: nat)
    requires Consistent(ws, ts, es)
    ensures var accepted := WorkTypeDeletion(ts, es, pk).None?;
      accepted <==> pk in WorkTypePks(ts) && Consistent(ws, WithoutWorkType(ts, pk), es)
  {
    var ts' := WithoutWorkType(ts, pk);
    if pk in WorkTypePks(ts) && ReferencesWorkType(es, pk) {
      var e :| e in es && e.workType == pk;
      assert e.workType !in WorkTypePks(ts');
    }
  }

  /** Stored workers are told apart by their display text, whatever their names. */
  lemma StoredWorkersDisplayDistinctly(ws: seq<Worker>, i: int, j: int)
    requires WorkersKeyed(ws) && 0 <= i < j < |ws|
    ensures WorkerText(ws[i]) != WorkerText(ws[j])
  {
    if WorkerText(ws[i]) == WorkerText(ws[j]) {
      WorkerTextDeterminesTelegramId(ws[i], ws[j]);
    }
  }
}
