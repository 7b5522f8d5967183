/**
  How the report's queries see a stored entry: joined along its two foreign
  keys with its worker (`worker__full_name`) and its work type
  (`work_type__name`, `work_type__unit`).
 */
module Joins {
  import opened Models
  import opened Store
  import opened Aggregates

  /** The worker a foreign key points to. */
  function WorkerWithPk(ws: seq<Worker>, pk: nat): (w: Worker)
    requires pk in WorkerPks(ws)
    ensures w in ws && w.pk == pk
  {
    if ws[0].pk == pk then ws[0]
    else
      assert forall v :: v in ws ==> v == ws[0] || v in ws[1..];
      WorkerWithPk(ws[1..], pk)
  }

  /** The work type a foreign key points to. */
  function WorkTypeWithPk(ts: seq<WorkType>, pk: nat): (t: WorkType)
    requires pk in WorkTypePks(ts)
    ensures t in ts && t.pk == pk
  {
    if ts[0].pk == pk then ts[0]
    else
      assert forall v :: v in ts ==> v == ts[0] || v in ts[1..];
      WorkTypeWithPk(ts[1..], pk)
  }

  /** One entry joined with the worker and the work type it refers to. */
  function RowOf(ws: seq<Worker>, ts: seq<WorkType>, e: WorkEntry): Row
    requires e.worker in WorkerPks(ws) && e.workType in WorkTypePks(ts) && e.quantity >= 0
  {
    var w := WorkerWithPk(ws, e.worker);
    var t := WorkTypeWithPk(ts, e.workType);
    Row(e.worker, w.fullName, e.workType, t.name, t.unit, e.workDate, e.quantity)
  }

  /** Every stored entry as the queries see it, in table order. */
  function EntryRows(ws: seq<Worker>, ts: seq<WorkType>, es: seq<WorkEntry>): (rows: seq<Row>)
    requires EntriesValid(ws, ts, es)
    ensures |rows| == |es|
  {
    seq(|es|, i requires 0 <= i < |es| => assert es[i] in es; RowOf(ws, ts, es[i]))
  }

  /** Two stored workers with the same primary key are the same worker. */
  lemma WorkerPkDetermines(ws: seq<Worker>, v: Worker, w: Worker)
    requires WorkersKeyed(ws) && v in ws && w in ws && v.pk == w.pk
    ensures v == w
  {
    var a :| 0 <= a < |ws| && ws[a] == v;
    var b :| 0 <= b < |ws| && ws[b] == w;
    assert a == b;
  }

  lemma WorkTypePkDetermines(ts: seq<WorkType>, s: WorkType, t: WorkType)
    requires WorkTypesKeyed(ts) && s in ts && t in ts && s.pk == t.pk
    ensures s == t
  {
    var a :| 0 <= a < |ts| && ts[a] == s;
    var b :| 0 <= b < |ts| && ts[b] == t;
    assert a == b;
  }

  /** In consistent tables, the row of entry i carries the entry's own date and quantity,
      the full name of the worker it refers to and the name and unit of its work type. */
  lemma EntryRowsJoin(ws: seq<Worker>, ts: seq<WorkType>, es: seq<WorkEntry>, i: int, w: Worker, t: WorkType)
    requires Consistent(ws, ts, es) && 0 <= i < |es|
    requires w in ws && w.pk == es[i].worker && t in ts && t.pk == es[i].workType
    ensures EntryRows(ws, ts, es)[i]
      == Row(es[i].worker, w.fullName, es[i].workType, t.name, t.unit, es[i].workDate, es[i].quantity)
  {
    assert es[i] in es;
    WorkerPkDetermines(ws, WorkerWithPk(ws, es[i].worker), w);
    WorkTypePkDetermines(ts, WorkTypeWithPk(ts, es[i].workType), t);
  }
}
