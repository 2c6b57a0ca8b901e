/**
 * The program controller: `store` composes period rows and period-subject
 * pivot rows from one submitted list, `periods` lists a program's periods with
 * subject names in place of subject ids, and `update` defaults the periods
 * field to an empty list.
 *
 * Persistence is an in-memory `Database` whose tables are sequences; the id
 * of a program or period row is its position in its table, standing for the
 * auto-increment key.
 */
module ProgramController {
  import opened Php

  /** A decoded JSON object: a submitted period or subject entry, or a row's attributes. */
  type Record = map<string, Value>

  /** A period-subject pivot row: the period's id, the subject id as submitted, its order and the program. */
  datatype Attachment = Attachment(period: nat, subject: Value, ordr: nat, program: nat)

  class Database {
    var programs: seq<Record>
    var periods: seq<Record>
    var attachments: seq<Attachment>

    constructor ()
      ensures programs == [] && periods == [] && attachments == []
    {
      programs, periods, attachments := [], [], [];
    }
  }

  /** An entry is a period exactly when its type is the string `period`; any other type attaches a subject. */
  predicate IsPeriod(e: Record) {
    "type" in e && e["type"] == Str("period")
  }

  /** The row `Period::create` receives: the entry with its order and program overwritten. */
  function PeriodRow(e: Record, ordr: nat, program: nat): Record {
    e["ordr" := Int(ordr)]["program_id" := Int(program)]
  }

  /**
   * The ids `attach($id)` writes one pivot row each for: the elements of
   * `(array) $id`. Null gives none, a list gives its elements (an element that
   * is itself a list stands for its position), and any other value gives itself.
   */
  function AttachIds(id: Value): (ids: seq<Value>)
    ensures id.Null? ==> ids == []
    ensures id.List? ==> |ids| == |id.items|
    ensures !id.Null? && !id.List? ==> ids == [id]
  {
    match id
    case Null => []
    case List(xs) => seq(|xs|, k requires 0 <= k < |xs| => if xs[k].List? then Int(k) else xs[k])
    case _ => [id]
  }

  /** The pivot rows of one `attach` call: one per id, all with the same period, order and program. */
  function Rows(period: nat, ids: seq<Value>, ordr: nat, program: nat): seq<Attachment> {
    seq(|ids|, k requires 0 <= k < |ids| => Attachment(period, ids[k], ordr, program))
  }

  /**
   * What the loop of `store` has written so far, the attachment counter `$j`,
   * and the failure that stopped the loop, if any.
   */
  datatype Composition = Composition(periods: seq<Record>, attachments: seq<Attachment>, subjectOrdr: nat, failure: Option<Error>)

  /**
   * One iteration of the loop of `store`. The period counter is the number of
   * periods written, the attachment counter counts the `attach` calls made
   * (whatever number of rows each wrote), and the cursor is the last period
   * written (id `base + |periods| - 1`).
   */
  function Step(program: nat, base: nat, c: Composition, e: Record): Composition {
    if c.failure.Some? then c
    else if "type" !in e then c.(failure := Some(MissingKey("type")))
    else if IsPeriod(e) then c.(periods := c.periods + [PeriodRow(e, |c.periods|, program)])
    else if c.periods == [] then c.(failure := Some(NoCurrentPeriod))
    else if "id" !in e then c.(failure := Some(MissingKey("id")))
    else c.(attachments := c.attachments + Rows(base + |c.periods| - 1, AttachIds(e["id"]), c.subjectOrdr, program),
            subjectOrdr := c.subjectOrdr + 1)
  }

  /** The functional specification of the loop: `Step` over the entries in submission order. */
  function Compose(program: nat, base: nat, es: seq<Record>): Composition
    decreases |es|
  {
    if es == [] then Composition([], [], 0, None)
    else Step(program, base, Compose(program, base, es[..|es| - 1]), es[|es| - 1])
  }

  /** The number of period entries in `es`. */
  function CountPeriods(es: seq<Record>): (n: nat)
    ensures n <= |es|
    decreases |es|
  {
    if es == [] then 0
    else CountPeriods(es[..|es| - 1]) + (if IsPeriod(es[|es| - 1]) then 1 else 0)
  }

  /** The position of the last period entry before position `p`, or -1 when there is none. */
  function NearestPeriod(es: seq<Record>, p: nat): (q: int)
    requires p <= |es|
    ensures -1 <= q < p
    ensures q >= 0 ==> IsPeriod(es[q])
    ensures forall r :: q < r < p ==> !IsPeriod(es[r])
  {
    if p == 0 then -1
    else if IsPeriod(es[p - 1]) then p - 1
    else NearestPeriod(es, p - 1)
  }

  lemma PrefixOfPrefix(es: seq<Record>, k: nat)
    requires 0 < k <= |es|
    ensures es[..k][..k - 1] == es[..k - 1]
  {
  }

  lemma AppendAssoc<T>(a: seq<T>, b: seq<T>, c: seq<T>)
    ensures (a + b) + c == a + (b + c)
  {
  }

  /** Composing one more entry is one more step. */
  lemma ComposeSnoc(program: nat, base: nat, es: seq<Record>, k: nat)
    requires k < |es|
    ensures Compose(program, base, es[..k + 1]) == Step(program, base, Compose(program, base, es[..k]), es[k])
  {
    assert es[..k + 1][..k] == es[..k];
  }

  /** Once a step fails, the rest of the list changes nothing. */
  lemma {:induction false} FailureIsFinal(program: nat, base: nat, es: seq<Record>, k: nat)
    requires k <= |es|
    requires Compose(program, base, es[..k]).failure.Some?
    ensures Compose(program, base, es) == Compose(program, base, es[..k])
    decreases |es| - k
  {
    if k < |es| {
      assert es[..k + 1][..k] == es[..k];
      FailureIsFinal(program, base, es, k + 1);
    } else {
      assert es[..k] == es;
    }
  }

  /**
   * Every period row carries its position among the new periods as `ordr` and
   * the program's id, whatever the entry submitted for those two fields; every
   * attachment carries an order below the attachment counter, never smaller
   * than an earlier attachment's, the program's id, and one of the new periods.
   */
  lemma {:induction false} RowOrders(program: nat, base: nat, es: seq<Record>)
    ensures var c := Compose(program, base, es);
      && (forall k :: 0 <= k < |c.periods| ==>
            "ordr" in c.periods[k] && c.periods[k]["ordr"] == Int(k)
            && "program_id" in c.periods[k] && c.periods[k]["program_id"] == Int(program))
      && (forall k :: 0 <= k < |c.attachments| ==>
            c.attachments[k].ordr < c.subjectOrdr && c.attachments[k].program == program
            && base <= c.attachments[k].period < base + |c.periods|)
      && (forall a, b :: 0 <= a < b < |c.attachments| ==> c.attachments[a].ordr <= c.attachments[b].ordr)
    decreases |es|
  {
    if es != [] {
      var init := es[..|es| - 1];
      RowOrders(program, base, init);
      assert Compose(program, base, es) == Step(program, base, Compose(program, base, init), es[|es| - 1]);
    }
  }

  /**
   * Without a failure, there is one period row per period entry and one
   * `attach` call per other entry: period orders run over 0 .. #periods - 1,
   * and the attachment counter ends at #others, one counter for the whole list.
   */
  lemma {:induction false} CountsMatchEntries(program: nat, base: nat, es: seq<Record>)
    requires Compose(program, base, es).failure.None?
    ensures |Compose(program, base, es).periods| == CountPeriods(es)
    ensures Compose(program, base, es).subjectOrdr == |es| - CountPeriods(es)
    decreases |es|
  {
    if es != [] {
      var init := es[..|es| - 1];
      assert Compose(program, base, init).failure.None?;
      CountsMatchEntries(program, base, init);
    }
  }

  /** The rows written for a prefix of the list are a prefix of the rows written for the list. */
  lemma {:induction false} PrefixRows(program: nat, base: nat, es: seq<Record>, k: nat)
    requires k <= |es|
    ensures var c, d := Compose(program, base, es[..k]), Compose(program, base, es);
      && c.periods <= d.periods && c.attachments <= d.attachments
      && (d.failure.None? ==> c.failure.None?)
    decreases |es| - k
  {
    if k < |es| {
      PrefixOfPrefix(es, k + 1);
      var prefix := es[..k + 1];
      assert Compose(program, base, prefix) == Step(program, base, Compose(program, base, es[..k]), es[k]);
      PrefixRows(program, base, es, k + 1);
    } else {
      assert es[..k] == es;
    }
  }

  lemma {:induction false} NearestPeriodCount(es: seq<Record>, p: nat)
    requires p <= |es|
    ensures var q := NearestPeriod(es, p);
      CountPeriods(es[..p]) == if q < 0 then 0 else CountPeriods(es[..q]) + 1
  {
    if p > 0 {
      PrefixOfPrefix(es, p);
      var q := NearestPeriod(es, p);
      if IsPeriod(es[p - 1]) {
        assert q == p - 1;
      } else {
        NearestPeriodCount(es, p - 1);
      }
    }
  }

  /** The row written for the period entry at position `q` is that entry, with its order and program overwritten. */
  lemma PeriodRowOfEntry(program: nat, base: nat, es: seq<Record>, q: nat)
    requires q < |es| && IsPeriod(es[q])
    requires Compose(program, base, es).failure.None?
    ensures CountPeriods(es[..q]) < |Compose(program, base, es).periods|
    ensures Compose(program, base, es).periods[CountPeriods(es[..q])] == PeriodRow(es[q], CountPeriods(es[..q]), program)
  {
    PrefixRows(program, base, es, q + 1);
    PrefixRows(program, base, es, q);
    PrefixOfPrefix(es, q + 1);
    assert es[..q + 1][..q] == es[..q];
    CountsMatchEntries(program, base, es[..q]);
  }

  /**
   * The entry at position `p` that is not a period has an `id`, follows some
   * period entry, and writes its pivot rows right after those of the earlier
   * entries.
   */
  lemma EntryAttaches(program: nat, base: nat, es: seq<Record>, p: nat)
    requires p < |es| && !IsPeriod(es[p])
    requires Compose(program, base, es).failure.None?
    ensures "id" in es[p] && NearestPeriod(es, p) >= 0
    ensures |Compose(program, base, es[..p]).attachments| + |AttachIds(es[p]["id"])| <= |Compose(program, base, es).attachments|
  {
    AttachStep(program, base, es, p);
    CursorCount(program, base, es, p);
  }

  /**
   * The cursor: the `k`-th id of `(array) $id` of the non-period entry at
   * position `p` becomes the pivot row at `k` past the rows of the earlier
   * entries, attached to the row of the nearest period entry before `p`, with
   * the number of earlier non-period entries as its order.
   */
  lemma AttachmentOfEntry(program: nat, base: nat, es: seq<Record>, p: nat, k: nat)
    requires p < |es| && !IsPeriod(es[p])
    requires Compose(program, base, es).failure.None?
    requires "id" in es[p] && k < |AttachIds(es[p]["id"])|
    ensures NearestPeriod(es, p) >= 0
    ensures |Compose(program, base, es[..p]).attachments| + k < |Compose(program, base, es).attachments|
    ensures Compose(program, base, es).attachments[|Compose(program, base, es[..p]).attachments| + k]
      == Attachment(base + CountPeriods(es[..NearestPeriod(es, p)]), AttachIds(es[p]["id"])[k], p - CountPeriods(es[..p]), program)
  {
    AttachStep(program, base, es, p);
    AttachRow(program, base, es, p, k);
    CursorCount(program, base, es, p);
  }

  /** An element of a prefix is the element at the same position of the whole. */
  lemma PrefixAt<T>(a: seq<T>, b: seq<T>, i: nat)
    requires a <= b && (i < |a| || i == 0)
    ensures |a| <= |b| && (i < |a| ==> b[i] == a[i])
  {
  }

  /** The subject entry at `p` has an id, a period before it, and room for its rows right after the earlier ones. */
  lemma AttachStep(program: nat, base: nat, es: seq<Record>, p: nat)
    requires p < |es| && !IsPeriod(es[p])
    requires Compose(program, base, es).failure.None?
    ensures "id" in es[p]
    ensures Compose(program, base, es[..p]).periods != [] && Compose(program, base, es[..p]).failure.None?
    ensures |Compose(program, base, es[..p]).attachments| + |AttachIds(es[p]["id"])| <= |Compose(program, base, es).attachments|
  {
    var c, d, d1 := Compose(program, base, es), Compose(program, base, es[..p]), Compose(program, base, es[..p + 1]);
    ComposeSnoc(program, base, es, p);
    PrefixRows(program, base, es, p + 1);
    PrefixAt(d1.attachments, c.attachments, 0);
  }

  /** The `k`-th row the subject entry at `p` appends, in terms of the composition before it. */
  lemma AttachRow(program: nat, base: nat, es: seq<Record>, p: nat, k: nat)
    requires p < |es| && !IsPeriod(es[p])
    requires Compose(program, base, es).failure.None?
    requires "id" in es[p] && k < |AttachIds(es[p]["id"])|
    ensures Compose(program, base, es[..p]).periods != []
    ensures |Compose(program, base, es[..p]).attachments| + k < |Compose(program, base, es).attachments|
    ensures Compose(program, base, es).attachments[|Compose(program, base, es[..p]).attachments| + k]
      == Attachment(base + |Compose(program, base, es[..p]).periods| - 1, AttachIds(es[p]["id"])[k],
                    Compose(program, base, es[..p]).subjectOrdr, program)
  {
    var c, d, d1 := Compose(program, base, es), Compose(program, base, es[..p]), Compose(program, base, es[..p + 1]);
    ComposeSnoc(program, base, es, p);
    PrefixRows(program, base, es, p + 1);
    PrefixAt(d1.attachments, c.attachments, |d.attachments| + k);
  }

  /** Before position `p`, the cursor is the nearest period entry and the attachment counter counts the other entries. */
  lemma CursorCount(program: nat, base: nat, es: seq<Record>, p: nat)
    requires p <= |es|
    requires Compose(program, base, es[..p]).failure.None? && Compose(program, base, es[..p]).periods != []
    ensures NearestPeriod(es, p) >= 0
    ensures |Compose(program, base, es[..p]).periods| - 1 == CountPeriods(es[..NearestPeriod(es, p)])
    ensures Compose(program, base, es[..p]).subjectOrdr == p - CountPeriods(es[..p])
  {
    CountsMatchEntries(program, base, es[..p]);
    NearestPeriodCount(es, p);
  }

  /** A list that starts with a subject entry fails at once and writes no row. */
  lemma LeadingSubjectFails(program: nat, base: nat, es: seq<Record>)
    requires es != [] && "type" in es[0] && !IsPeriod(es[0])
    ensures Compose(program, base, es) == Composition([], [], 0, Some(NoCurrentPeriod))
  {
    assert es[..1][..0] == [];
    FailureIsFinal(program, base, es, 1);
  }

  /** A failure at position `p` keeps the rows the earlier entries wrote: nothing is rolled back. */
  lemma FailureKeepsEarlierRows(program: nat, base: nat, es: seq<Record>, p: nat)
    requires p < |es|
    requires Compose(program, base, es[..p]).failure.None?
    requires Compose(program, base, es[..p + 1]).failure.Some?
    ensures var c, d := Compose(program, base, es), Compose(program, base, es[..p]);
      c.periods == d.periods && c.attachments == d.attachments && c.failure.Some?
  {
    PrefixOfPrefix(es, p + 1);
    FailureIsFinal(program, base, es, p + 1);
  }

  /** A period followed by a subject entry without an id: the period row stays although the request fails. */
  lemma NotAtomic(program: nat, base: nat)
    ensures var es := [map["type" := Str("period")], map["type" := Str("subject")]];
      var c := Compose(program, base, es);
      c.failure == Some(MissingKey("id")) && |c.periods| == 1
  {
    var es := [map["type" := Str("period")], map["type" := Str("subject")]];
    assert es[..1] == [es[0]] && es[..1][..0] == [];
    assert es[..|es| - 1] == es[..1];
  }

  /**
   * A subject entry with a null id writes no pivot row, yet still advances the
   * attachment counter: the next subject's row has order 1, not 0.
   */
  lemma NullIdLeavesGap(program: nat, base: nat)
    ensures var es := [map["type" := Str("period")],
                       map["type" := Str("subject"), "id" := Null],
                       map["type" := Str("subject"), "id" := Int(5)]];
      var c := Compose(program, base, es);
      c.failure.None? && c.attachments == [Attachment(base, Int(5), 1, program)]
  {
    var es := [map["type" := Str("period")],
               map["type" := Str("subject"), "id" := Null],
               map["type" := Str("subject"), "id" := Int(5)]];
    assert es[..1] == [es[0]] && es[..1][..0] == [];
    assert es[..2][..1] == es[..1];
    assert es[..|es| - 1] == es[..2];
    var c1 := Compose(program, base, es[..1]);
    assert c1 == Step(program, base, Compose(program, base, []), es[0]);
    assert c1 == Composition([PeriodRow(es[0], 0, program)], [], 0, None);
    var c2 := Compose(program, base, es[..2]);
    assert AttachIds(Null) == [];
    assert c2 == Composition(c1.periods, [], 1, None);
    assert AttachIds(Int(5)) == [Int(5)];
    assert Rows(base, [Int(5)], 1, program) == [Attachment(base, Int(5), 1, program)];
  }

  /**
   * One pass of the loop of `store`, for entry `e`: a period entry writes a
   * period row and becomes the current period `cp`; any other entry attaches
   * its subject ids to `cp` with order `j`. `c` is the composition of the
   * entries before `e`, whose rows follow `periods0` and `attachments0`.
   */
  method ComposeEntry(db: Database, program: nat, ghost base: nat, ghost periods0: seq<Record>,
                      ghost attachments0: seq<Attachment>, ghost c: Composition, e: Record,
                      i: nat, j: nat, cp: Option<nat>)
    returns (failure: Option<Error>, i': nat, j': nat, cp': Option<nat>)
    modifies db
    requires c.failure.None?
    requires db.periods == periods0 + c.periods && db.attachments == attachments0 + c.attachments
    requires i == |c.periods| && j == c.subjectOrdr && |db.periods| == base + i
    requires i == 0 ==> cp.None?
    requires i > 0 ==> cp == Some(base + i - 1)
    ensures failure == Step(program, base, c, e).failure
    ensures db.periods == periods0 + Step(program, base, c, e).periods
    ensures db.attachments == attachments0 + Step(program, base, c, e).attachments
    ensures i' == |Step(program, base, c, e).periods| && j' == Step(program, base, c, e).subjectOrdr
    ensures |db.periods| == base + i'
    ensures i' == 0 ==> cp'.None?
    ensures i' > 0 ==> cp' == Some(base + i' - 1)
    ensures db.programs == old(db.programs)
  {
    failure, i', j', cp' := None, i, j, cp;
    if "type" !in e {
      failure := Some(MissingKey("type"));
    } else if e["type"] == Str("period") {
      assert IsPeriod(e);
      AppendAssoc(periods0, c.periods, [PeriodRow(e, i, program)]);
      cp' := Some(|db.periods|);
      db.periods := db.periods + [PeriodRow(e, i, program)];
      i' := i + 1;
    } else if cp.None? {
      assert c.periods == [];
      failure := Some(NoCurrentPeriod);
    } else if "id" !in e {
      assert !IsPeriod(e) && c.periods != [];
      failure := Some(MissingKey("id"));
    } else {
      assert !IsPeriod(e) && c.periods != [] && cp.value == base + |c.periods| - 1;
      ghost var rows := Rows(base + |c.periods| - 1, AttachIds(e["id"]), c.subjectOrdr, program);
      AppendAssoc(attachments0, c.attachments, rows);
      db.attachments := db.attachments + Rows(cp.value, AttachIds(e["id"]), j, program);
      j' := j + 1;
    }
  }

  /**
   * The loop of `store`: walks the decoded list (`decoded`, the result of
   * `json_decode`) in order, writing period rows and pivot rows for program
   * `program`, and stops at the first entry that fails. Rows written before
   * a failure stay.
   */
  method ComposePeriods(db: Database, program: nat, decoded: seq<Record>) returns (failure: Option<Error>)
    modifies db
    ensures var c := Compose(program, |old(db.periods)|, decoded);
      && db.periods == old(db.periods) + c.periods
      && db.attachments == old(db.attachments) + c.attachments
      && failure == c.failure
    ensures db.programs == old(db.programs)
  {
    ghost var base, periods0, attachments0 := |db.periods|, db.periods, db.attachments;
    var i, j := 0, 0;
    var cp: Option<nat> := None;
    failure := None;
    var k := 0;
    ghost var c := Compose(program, base, []);
    while k < |decoded| && failure.None?
      invariant 0 <= k <= |decoded|
      invariant db.programs == old(db.programs)
      invariant c == Compose(program, base, decoded[..k]) && c.failure == failure
      invariant db.periods == periods0 + c.periods
      invariant db.attachments == attachments0 + c.attachments
      invariant i == |c.periods| && j == c.subjectOrdr
      invariant |db.periods| == base + i
      invariant i == 0 ==> cp.None?
      invariant i > 0 ==> cp == Some(base + i - 1)
    {
      ComposeSnoc(program, base, decoded, k);
      failure, i, j, cp := ComposeEntry(db, program, base, periods0, attachments0, c, decoded[k], i, j, cp);
      c := Step(program, base, c, decoded[k]);
      k := k + 1;
    }
    if failure.Some? {
      FailureIsFinal(program, base, decoded, k);
    } else {
      assert decoded[..k] == decoded;
    }
  }

  /**
   * `store`: filters the request and creates the program row; then, when a
   * periods list was submitted, runs the loop over the decoded list. The
   * program row and every row written before a failure stay.
   */
  method Store(db: Database, request: Record, decoded: seq<Record>) returns (r: Result<nat, Error>)
    modifies db
    ensures db.programs == old(db.programs) + [ArrayFilter(request)]
    ensures Filled(request, "periods") ==>
      var c := Compose(|old(db.programs)|, |old(db.periods)|, decoded);
      && db.periods == old(db.periods) + c.periods
      && db.attachments == old(db.attachments) + c.attachments
      && r == (if c.failure.Some? then Failure(c.failure.value) else Success(|old(db.programs)|))
    ensures !Filled(request, "periods") ==>
      db.periods == old(db.periods) && db.attachments == old(db.attachments) && r == Success(|old(db.programs)|)
  {
    var data := ArrayFilter(request);
    var program := |db.programs|;
    db.programs := db.programs + [data];
    r := Success(program);
    if "periods" in data {
      var failure := ComposePeriods(db, program, decoded);
      if failure.Some? {
        r := Failure(failure.value);
      }
    }
  }

  /** A period as the program's `getPeriods` yields it: attributes and the list of its subject ids. */
  datatype StoredPeriod = StoredPeriod(attrs: Record, subjects: seq<int>)

  /** The `subjects` field of a listed period: the ids as stored, or an id-to-name map. */
  datatype Subjects = Ids(ids: seq<int>) | Names(names: map<int, string>)

  datatype ListedPeriod = ListedPeriod(attrs: Record, subjects: Subjects)

  /**
   * `l` lists `p`: the same attributes; no subjects stay as they are; otherwise
   * the subjects become a map from exactly those of `p`'s ids the subject table
   * holds to their names.
   */
  ghost predicate Lists(subjectTable: map<int, string>, p: StoredPeriod, l: ListedPeriod) {
    && l.attrs == p.attrs
    && (p.subjects == [] ==> l.subjects == Ids([]))
    && (p.subjects != [] ==>
          && l.subjects.Names?
          && (forall s :: s in l.subjects.names <==> s in subjectTable && s in p.subjects)
          && (forall s :: s in l.subjects.names ==> s in subjectTable && l.subjects.names[s] == subjectTable[s]))
  }

  /**
   * `periods($id)`: finds the program (failing when there is none), then lists
   * its periods in order; a period with subjects gets, in place of its ids, the
   * names the subject table holds for those ids.
   */
  method Periods(programPeriods: map<int, seq<StoredPeriod>>, id: int, subjectTable: map<int, string>)
    returns (r: Result<seq<ListedPeriod>, Error>)
    ensures r.Failure? <==> id !in programPeriods
    ensures r.Failure? ==> r.error == NotFound
    ensures r.Success? ==> var ps := programPeriods[id];
      && |r.value| == |ps|
      && forall k :: 0 <= k < |ps| ==> Lists(subjectTable, ps[k], r.value[k])
  {
    if id !in programPeriods {
      return Failure(NotFound);
    }
    var all := programPeriods[id];
    var periods: seq<ListedPeriod> := [];
    var k := 0;
    while k < |all|
      invariant 0 <= k <= |all| && |periods| == k
      invariant forall n :: 0 <= n < k ==> Lists(subjectTable, all[n], periods[n])
    {
      var period := ListedPeriod(all[k].attrs, Ids(all[k].subjects));
      if all[k].subjects != [] {
        var ids := all[k].subjects;
        var names := map s | s in subjectTable && s in ids :: subjectTable[s];
        period := period.(subjects := Names(names));
      }
      periods := periods + [period];
      k := k + 1;
    }
    r := Success(periods);
  }

  /** The data `update` hands to the program row: the filtered request, with `periods` an empty list when absent or empty. */
  function UpdateData(request: Record): (data: Record)
    ensures "periods" in data
    ensures data["periods"] == if Filled(request, "periods") then request["periods"] else List([])
    ensures forall k :: k != "periods" ==> (k in data <==> Filled(request, k))
    ensures forall k :: k != "periods" && k in data ==> k in request && data[k] == request[k]
  {
    var data := ArrayFilter(request);
    if "periods" !in data then data["periods" := List([])] else data
  }

  /** `update`: the bound program's attributes take the update data; a missing program is a not-found failure. */
  method Update(db: Database, id: nat, request: Record) returns (r: Outcome<Error>)
    modifies db
    ensures r.Fail? <==> id >= |old(db.programs)|
    ensures r.Pass? ==> db.programs == old(db.programs)[id := old(db.programs)[id] + UpdateData(request)]
    ensures r.Fail? ==> db.programs == old(db.programs)
    ensures db.periods == old(db.periods) && db.attachments == old(db.attachments)
  {
    if id >= |db.programs| {
      return Fail(NotFound);
    }
    var data := UpdateData(request);
    db.programs := db.programs[id := db.programs[id] + data];
    r := Pass;
  }
}
