/** The list of uploaded files kept by the upload panel, as a reducer: every
    state change the panel makes (submitting files, each file's simulated
    progress and terminal status, dismissing a file) is an `Event` applied
    to an immutable list. The asynchronous per-file continuations of the
    panel become an arbitrary interleaving of such events. */
module FileUpload {
  import opened Text
  import Wrappers
  import Seqs

  /** Generated at submission (`Date.now()` followed by a random number in
      the panel); here an opaque parameter. */
  type Id = String

  datatype Status = Uploading | Success | Error

  datatype UploadedFile = UploadedFile(
    id: Id,
    name: String,
    size: nat,
    syllabus: String,
    status: Status,
    progress: int)

  /** A file the browser hands over: name, size in bytes and MIME type. */
  datatype LocalFile = LocalFile(name: String, size: nat, mimeType: String)

  /** A submitted file with the id generated for it. */
  datatype Picked = Picked(id: Id, file: LocalFile)

  datatype Event =
    | Added(picked: seq<Picked>, syllabus: String)
    | Progressed(id: Id, progress: int)
    | Succeeded(id: Id)
    | Failed(id: Id)
    | Removed(id: Id)

  function Ids(list: seq<UploadedFile>): (ids: seq<Id>)
    ensures |ids| == |list|
    ensures forall i :: 0 <= i < |list| ==> ids[i] == list[i].id
  {
    seq(|list|, i requires 0 <= i < |list| => list[i].id)
  }

  predicate UniqueIds(list: seq<UploadedFile>) {
    forall i, j :: 0 <= i < j < |list| ==> list[i].id != list[j].id
  }

  function HasId(k: Id): UploadedFile -> bool {
    (f: UploadedFile) => f.id == k
  }

  function NotId(k: Id): UploadedFile -> bool {
    (f: UploadedFile) => f.id != k
  }

  function PickedId(k: Id): Picked -> bool {
    (p: Picked) => p.id == k
  }

  /** The entries of the list that carry id `k`, in list order. */
  function EntriesOf(list: seq<UploadedFile>, k: Id): seq<UploadedFile> {
    Seqs.Filter(list, HasId(k))
  }

  // ---------------------------------------------------------------------------
  // Operations

  /** The fresh entries for the submitted files, in file order. */
  function NewEntries(picked: seq<Picked>, syllabus: String): (r: seq<UploadedFile>)
    ensures |r| == |picked|
    ensures forall i :: 0 <= i < |picked| ==>
              r[i] == UploadedFile(picked[i].id, picked[i].file.name, picked[i].file.size,
                                   syllabus, Uploading, 0)
  {
    if picked == [] then []
    else
      [UploadedFile(picked[0].id, picked[0].file.name, picked[0].file.size, syllabus, Uploading, 0)]
      + NewEntries(picked[1..], syllabus)
  }

  /** Submitting files appends one entry per file after the existing ones, in
      file order, each uploading from progress 0 under the selected
      syllabus; the existing entries are kept as they are. */
  function Submit(list: seq<UploadedFile>, picked: seq<Picked>, syllabus: String): (r: seq<UploadedFile>)
    ensures |r| == |list| + |picked|
    ensures r[..|list|] == list
    ensures forall i :: 0 <= i < |picked| ==>
              && r[|list| + i].id == picked[i].id
              && r[|list| + i].name == picked[i].file.name
              && r[|list| + i].size == picked[i].file.size
              && r[|list| + i].syllabus == syllabus
              && r[|list| + i].status == Uploading
              && r[|list| + i].progress == 0
    ensures picked == [] ==> r == list
  {
    list + NewEntries(picked, syllabus)
  }

  /** Replaces every entry with id `k` by `upd` of it and keeps the others. */
  function UpdateWhere(list: seq<UploadedFile>, k: Id, upd: UploadedFile -> UploadedFile): (r: seq<UploadedFile>)
    ensures |r| == |list|
    ensures forall i :: 0 <= i < |list| ==> r[i] == (if list[i].id == k then upd(list[i]) else list[i])
  {
    if list == [] then []
    else [if list[0].id == k then upd(list[0]) else list[0]] + UpdateWhere(list[1..], k, upd)
  }

  function WithProgress(p: int): UploadedFile -> UploadedFile {
    (f: UploadedFile) => f.(progress := p)
  }

  function WithStatus(s: Status): UploadedFile -> UploadedFile {
    (f: UploadedFile) => f.(status := s)
  }

  /** A progress update for id `k` changes the progress of the entries with
      id `k` and nothing else: every other entry, and every other field of
      those entries, is untouched, and no entry appears or disappears. */
  function SetProgress(list: seq<UploadedFile>, k: Id, p: int): (r: seq<UploadedFile>)
    ensures Ids(r) == Ids(list)
    ensures forall i :: 0 <= i < |list| && list[i].id != k ==> r[i] == list[i]
    ensures forall i :: 0 <= i < |list| && list[i].id == k ==>
              r[i].progress == p && r[i] == list[i].(progress := r[i].progress)
  {
    UpdateWhere(list, k, WithProgress(p))
  }

  /** A status update for id `k` changes the status of the entries with id
      `k` and nothing else; in particular their last progress is kept. */
  function SetStatus(list: seq<UploadedFile>, k: Id, s: Status): (r: seq<UploadedFile>)
    ensures Ids(r) == Ids(list)
    ensures forall i :: 0 <= i < |list| && list[i].id != k ==> r[i] == list[i]
    ensures forall i :: 0 <= i < |list| && list[i].id == k ==>
              r[i].status == s && r[i] == list[i].(status := r[i].status)
  {
    UpdateWhere(list, k, WithStatus(s))
  }

  /** Dismissing id `k` deletes exactly the entries with id `k` and keeps the
      rest in their relative order. */
  function RemoveFile(list: seq<UploadedFile>, k: Id): (r: seq<UploadedFile>)
    ensures k !in Ids(r)
    ensures Seqs.IsSubsequence(r, list)
    ensures forall i :: 0 <= i < |list| && list[i].id != k ==> list[i] in r
    ensures |r| == |list| - Seqs.CountWhere(list, HasId(k))
  {
    var r := Seqs.Filter(list, NotId(k));
    CountComplement(list, k);
    r
  }

  lemma {:induction false} CountComplement(list: seq<UploadedFile>, k: Id)
    ensures Seqs.CountWhere(list, NotId(k)) + Seqs.CountWhere(list, HasId(k)) == |list|
    decreases |list|
  {
    if list != [] {
      CountComplement(list[1..], k);
    }
  }

  /** The reducer: the effect of one event on the list. Only a submission
      adds entries, after the existing ones; progress and status updates
      keep every entry in place; a dismissal leaves no entry of its id. */
  function Apply(list: seq<UploadedFile>, e: Event): (r: seq<UploadedFile>)
    ensures e.Added? ==> |r| == |list| + |e.picked| && r[..|list|] == list
    ensures e.Progressed? || e.Succeeded? || e.Failed? ==> Ids(r) == Ids(list)
    ensures e.Removed? ==> e.id !in Ids(r) && |r| <= |list|
  {
    match e
    case Added(picked, syllabus) => Submit(list, picked, syllabus)
    case Progressed(k, p) => SetProgress(list, k, p)
    case Succeeded(k) => SetStatus(list, k, Success)
    case Failed(k) => SetStatus(list, k, Error)
    case Removed(k) => RemoveFile(list, k)
  }

  /** The list after a sequence of events, in order. Without a submission
      among them the list never grows. */
  function ApplyAll(list: seq<UploadedFile>, evs: seq<Event>): (r: seq<UploadedFile>)
    ensures (forall i :: 0 <= i < |evs| ==> !evs[i].Added?) ==> |r| <= |list|
    decreases |evs|
  {
    if evs == [] then list else ApplyAll(Apply(list, evs[0]), evs[1..])
  }

  lemma {:induction false} ApplyAllAppend(list: seq<UploadedFile>, a: seq<Event>, b: seq<Event>)
    ensures ApplyAll(list, a + b) == ApplyAll(ApplyAll(list, a), b)
    decreases |a|
  {
    if a == [] {
      assert a + b == b;
    } else {
      assert (a + b)[0] == a[0];
      assert (a + b)[1..] == a[1..] + b;
      ApplyAllAppend(Apply(list, a[0]), a[1..], b);
    }
  }

  // ---------------------------------------------------------------------------
  // Drag and drop

  const PdfMime: String := "application/pdf"

  function IsPdf(f: LocalFile): bool {
    f.mimeType == PdfMime
  }

  /** What a drop does: whether the invalid-type warning is shown, and the
      files handed on to the upload (no upload starts when there are none). */
  datatype DropOutcome = DropOutcome(warnInvalidType: bool, forwarded: seq<LocalFile>)

  /** Dropping files forwards exactly the PDF files, in order; the warning is
      shown exactly when some dropped file is not a PDF, and an upload starts
      exactly when some dropped file is one. */
  function HandleDrop(dropped: seq<LocalFile>): (r: DropOutcome)
    ensures forall i :: 0 <= i < |r.forwarded| ==> r.forwarded[i].mimeType == PdfMime
    ensures forall i :: 0 <= i < |dropped| && dropped[i].mimeType == PdfMime ==> dropped[i] in r.forwarded
    ensures Seqs.IsSubsequence(r.forwarded, dropped)
    ensures |r.forwarded| == Seqs.CountWhere(dropped, IsPdf)
    ensures r.warnInvalidType <==> exists i :: 0 <= i < |dropped| && dropped[i].mimeType != PdfMime
    ensures r.forwarded != [] <==> exists i :: 0 <= i < |dropped| && dropped[i].mimeType == PdfMime
  {
    var pdfs := Seqs.Filter(dropped, IsPdf);
    assert pdfs != [] ==> pdfs[0] in dropped;
    DropOutcome(|pdfs| != |dropped|, pdfs)
  }

  // ---------------------------------------------------------------------------
  // Well-formedness is kept by admissible events

  /** Ids are distinct and every progress lies in [0, 100]. */
  predicate WellFormed(list: seq<UploadedFile>) {
    && UniqueIds(list)
    && forall i :: 0 <= i < |list| ==> 0 <= list[i].progress <= 100
  }

  /** An event the panel can produce: fresh pairwise-distinct ids on
      submission, progress values in [0, 100]. */
  predicate Admissible(list: seq<UploadedFile>, e: Event) {
    match e
    case Added(picked, _) =>
      && (forall i :: 0 <= i < |picked| ==> picked[i].id !in Ids(list))
      && (forall i, j :: 0 <= i < j < |picked| ==> picked[i].id != picked[j].id)
    case Progressed(_, p) => 0 <= p <= 100
    case _ => true
  }

  lemma ApplyKeepsWellFormed(list: seq<UploadedFile>, e: Event)
    requires WellFormed(list)
    requires Admissible(list, e)
    ensures WellFormed(Apply(list, e))
  {
    match e
    case Added(picked, syllabus) =>
      var r := Submit(list, picked, syllabus);
      forall i, j | 0 <= i < j < |r|
        ensures r[i].id != r[j].id
      {
        if j >= |list| {
          if i >= |list| {
            assert r[i].id == picked[i - |list|].id;
          } else {
            assert r[i] == list[i];
            assert r[i].id in Ids(list);
          }
        } else {
          assert r[i] == list[i] && r[j] == list[j];
        }
      }
      forall i | 0 <= i < |r|
        ensures 0 <= r[i].progress <= 100
      {
        if i < |list| {
          assert r[i] == list[i];
        }
      }
    case Removed(k) =>
      var r := RemoveFile(list, k);
      SubsequenceKeepsWellFormed(r, list);
    case _ =>
  }

  lemma {:induction false} SubsequenceKeepsWellFormed(sub: seq<UploadedFile>, list: seq<UploadedFile>)
    requires WellFormed(list)
    requires Seqs.IsSubsequence(sub, list)
    ensures WellFormed(sub)
    decreases |list|
  {
    if sub != [] {
      assert list != [];
      if sub[0] == list[0] {
        SubsequenceKeepsWellFormed(sub[1..], list[1..]);
        SubsequenceMembers(sub[1..], list[1..]);
        forall j | 0 < j < |sub|
          ensures sub[0].id != sub[j].id
        {
          assert sub[1..][j - 1] == sub[j];
          var m :| 0 <= m < |list[1..]| && list[1..][m] == sub[j];
          assert list[m + 1] == sub[j];
        }
      } else {
        SubsequenceKeepsWellFormed(sub, list[1..]);
      }
    }
  }

  lemma {:induction false} SubsequenceMembers<T>(sub: seq<T>, s: seq<T>)
    requires Seqs.IsSubsequence(sub, s)
    ensures forall i :: 0 <= i < |sub| ==> exists m :: 0 <= m < |s| && s[m] == sub[i]
    decreases |s|
  {
    if sub != [] {
      if sub[0] == s[0] {
        SubsequenceMembers(sub[1..], s[1..]);
        forall i | 0 < i < |sub|
          ensures exists m :: 0 <= m < |s| && s[m] == sub[i]
        {
          assert sub[1..][i - 1] == sub[i];
          var m :| 0 <= m < |s[1..]| && s[1..][m] == sub[i];
          assert s[m + 1] == sub[i];
        }
      } else {
        SubsequenceMembers(sub, s[1..]);
        forall i | 0 <= i < |sub|
          ensures exists m :: 0 <= m < |s| && s[m] == sub[i]
        {
          var m :| 0 <= m < |s[1..]| && s[1..][m] == sub[i];
          assert s[m + 1] == sub[i];
        }
      }
    }
  }

  // ---------------------------------------------------------------------------
  // Per-id projection: concurrent continuations do not interfere

  /** The part of event `e` that concerns id `k`. */
  function Relevant(e: Event, k: Id): seq<Event> {
    match e
    case Added(picked, syllabus) =>
      var mine := Seqs.Filter(picked, PickedId(k));
      if mine == [] then [] else [Added(mine, syllabus)]
    case _ => if e.id == k then [e] else []
  }

  /** The events of `evs` that concern id `k`, in their order. */
  function Restrict(evs: seq<Event>, k: Id): seq<Event>
    decreases |evs|
  {
    if evs == [] then [] else Relevant(evs[0], k) + Restrict(evs[1..], k)
  }

  lemma {:induction false} EntriesOfNew(picked: seq<Picked>, syllabus: String, k: Id)
    ensures EntriesOf(NewEntries(picked, syllabus), k)
            == NewEntries(Seqs.Filter(picked, PickedId(k)), syllabus)
    decreases |picked|
  {
    if picked != [] {
      EntriesOfNew(picked[1..], syllabus, k);
      assert NewEntries(picked, syllabus)[1..] == NewEntries(picked[1..], syllabus);
    }
  }

  lemma {:induction false} EntriesOfUpdate(list: seq<UploadedFile>, j: Id, upd: UploadedFile -> UploadedFile, k: Id)
    requires forall f :: upd(f).id == f.id
    ensures EntriesOf(UpdateWhere(list, j, upd), k)
            == if j == k then UpdateWhere(EntriesOf(list, k), j, upd) else EntriesOf(list, k)
    decreases |list|
  {
    if list != [] {
      EntriesOfUpdate(list[1..], j, upd, k);
      assert UpdateWhere(list, j, upd)[1..] == UpdateWhere(list[1..], j, upd);
    }
  }

  lemma {:induction false} EntriesOfRemove(list: seq<UploadedFile>, j: Id, k: Id)
    ensures EntriesOf(RemoveFile(list, j), k) == if j == k then [] else EntriesOf(list, k)
    decreases |list|
  {
    if list != [] {
      EntriesOfRemove(list[1..], j, k);
    }
  }

  /** Dismissing an id from a list that holds only that id empties it. */
  lemma {:induction false} RemoveAllOwn(list: seq<UploadedFile>, k: Id)
    requires forall i :: 0 <= i < |list| ==> list[i].id == k
    ensures RemoveFile(list, k) == []
    decreases |list|
  {
    if list != [] {
      RemoveAllOwn(list[1..], k);
    }
  }

  lemma ProjectApply(list: seq<UploadedFile>, e: Event, k: Id)
    ensures EntriesOf(Apply(list, e), k) == ApplyAll(EntriesOf(list, k), Relevant(e, k))
  {
    match e
    case Added(picked, syllabus) =>
      ProjectAdded(list, picked, syllabus, k);
    case Progressed(j, p) =>
      EntriesOfUpdate(list, j, WithProgress(p), k);
    case Succeeded(j) =>
      EntriesOfUpdate(list, j, WithStatus(Success), k);
    case Failed(j) =>
      EntriesOfUpdate(list, j, WithStatus(Error), k);
    case Removed(j) =>
      ProjectRemoved(list, j, k);
  }

  lemma ProjectAdded(list: seq<UploadedFile>, picked: seq<Picked>, syllabus: String, k: Id)
    ensures EntriesOf(Submit(list, picked, syllabus), k)
            == ApplyAll(EntriesOf(list, k), Relevant(Added(picked, syllabus), k))
  {
    var mine := Seqs.Filter(picked, PickedId(k));
    var own := EntriesOf(list, k);
    assert EntriesOf(Submit(list, picked, syllabus), k) == own + NewEntries(mine, syllabus) by {
      Seqs.FilterAppend(list, NewEntries(picked, syllabus), HasId(k));
      EntriesOfNew(picked, syllabus, k);
    }
    if mine == [] {
      assert own + NewEntries(mine, syllabus) == own;
    } else {
      assert ApplyAll(own, [Added(mine, syllabus)]) == Submit(own, mine, syllabus);
    }
  }

  lemma ProjectRemoved(list: seq<UploadedFile>, j: Id, k: Id)
    ensures EntriesOf(RemoveFile(list, j), k)
            == ApplyAll(EntriesOf(list, k), Relevant(Removed(j), k))
  {
    EntriesOfRemove(list, j, k);
    if j == k {
      RemoveAllOwn(EntriesOf(list, k), k);
    }
  }

  /** What happens to the entries with id `k` depends only on the events that
      concern `k`, in their order: however the continuations of different
      files interleave, and whatever is submitted or dismissed for other ids
      in between, each file sees the same sequence of changes. */
  lemma {:induction false} ProjectAll(list: seq<UploadedFile>, evs: seq<Event>, k: Id)
    ensures EntriesOf(ApplyAll(list, evs), k) == ApplyAll(EntriesOf(list, k), Restrict(evs, k))
    decreases |evs|
  {
    if evs != [] {
      ProjectApply(list, evs[0], k);
      ProjectAll(Apply(list, evs[0]), evs[1..], k);
      ApplyAllAppend(EntriesOf(list, k), Relevant(evs[0], k), Restrict(evs[1..], k));
    }
  }

  /** Whether event `e` submits a file with id `k`. */
  predicate Introduces(e: Event, k: Id) {
    e.Added? && exists i :: 0 <= i < |e.picked| && e.picked[i].id == k
  }

  lemma {:induction false} UpdatesKeepEmpty(evs: seq<Event>)
    requires forall i :: 0 <= i < |evs| ==> !evs[i].Added?
    ensures ApplyAll([], evs) == []
    decreases |evs|
  {
    if evs != [] {
      UpdatesKeepEmpty(evs[1..]);
    }
  }

  lemma {:induction false} RestrictWithoutIntroduction(evs: seq<Event>, k: Id)
    requires forall i :: 0 <= i < |evs| ==> !Introduces(evs[i], k)
    ensures forall i :: 0 <= i < |Restrict(evs, k)| ==> !Restrict(evs, k)[i].Added?
    decreases |evs|
  {
    if evs != [] {
      RestrictWithoutIntroduction(evs[1..], k);
    }
  }

  /** A dismissed file is never resurrected: once id `k` is removed, no later
      progress or status update for `k` brings an entry with id `k` back, in
      any interleaving, unless a new submission reuses the id. */
  lemma RemovedStaysRemoved(list: seq<UploadedFile>, k: Id, later: seq<Event>)
    requires forall i :: 0 <= i < |later| ==> !Introduces(later[i], k)
    ensures k !in Ids(ApplyAll(Apply(list, Removed(k)), later))
  {
    RemovedHasNoEntries(list, k);
    NoEntriesStayNone(Apply(list, Removed(k)), later, k);
    NoEntriesNoId(ApplyAll(Apply(list, Removed(k)), later), k);
  }

  lemma RemovedHasNoEntries(list: seq<UploadedFile>, k: Id)
    ensures EntriesOf(Apply(list, Removed(k)), k) == []
  {
    assert Apply(list, Removed(k)) == RemoveFile(list, k);
    EntriesOfRemove(list, k, k);
  }

  /** A list without entries for `k` keeps none under events that do not
      submit `k`. */
  lemma NoEntriesStayNone(start: seq<UploadedFile>, later: seq<Event>, k: Id)
    requires EntriesOf(start, k) == []
    requires forall i :: 0 <= i < |later| ==> !Introduces(later[i], k)
    ensures EntriesOf(ApplyAll(start, later), k) == []
  {
    ProjectAll(start, later, k);
    RestrictWithoutIntroduction(later, k);
    UpdatesKeepEmpty(Restrict(later, k));
  }

  lemma {:induction false} NoEntriesNoId(list: seq<UploadedFile>, k: Id)
    requires EntriesOf(list, k) == []
    ensures k !in Ids(list)
    decreases |list|
  {
    if list != [] {
      NoEntriesNoId(list[1..], k);
      assert Ids(list) == [list[0].id] + Ids(list[1..]);
    }
  }

  // ---------------------------------------------------------------------------
  // The simulated upload of one file

  /** The progress values written by the simulated transfer loop, from
      `from` upward in steps of 10 while at most 100. */
  function Ticks(from: int): (r: seq<int>)
    ensures forall i :: 0 <= i < |r| ==> r[i] == from + 10 * i && r[i] <= 100
    ensures from <= 100 ==> |r| >= 1 && r[|r| - 1] > 90
    decreases if from > 100 then 0 else 101 - from
  {
    if from > 100 then [] else [from] + Ticks(from + 10)
  }

  /** The initial value of the simulated loop's progress counter. */
  const LoopStart: int := 0

  /** The loop starting at 0 writes exactly 0, 10, ..., 100. */
  lemma TicksFromZero()
    ensures |Ticks(LoopStart)| == 11
    ensures forall i :: 0 <= i < 11 ==> Ticks(LoopStart)[i] == 10 * i
    ensures Ticks(LoopStart)[10] == 100
  {
    var r := Ticks(LoopStart);
    assert r[|r| - 1] == 10 * (|r| - 1);
  }

  function ProgressEvents(k: Id, ticks: seq<int>): (evs: seq<Event>)
    ensures |evs| == |ticks|
    ensures forall i :: 0 <= i < |ticks| ==> evs[i] == Progressed(k, ticks[i])
  {
    seq(|ticks|, i requires 0 <= i < |ticks| => Progressed(k, ticks[i]))
  }

  /** The events the continuation for file `k` issues when nothing fails:
      progress 0, 10, ..., 100, then success. */
  function Steps(k: Id): seq<Event> {
    seq(12, i requires 0 <= i < 12 => if i < 11 then Progressed(k, 10 * i) else Succeeded(k))
  }

  /** These are the loop's progress ticks followed by the success update. */
  lemma StepsFromLoop(k: Id)
    ensures Steps(k) == ProgressEvents(k, Ticks(LoopStart)) + [Succeeded(k)]
  {
    TicksFromZero();
  }

  /** The events the continuation for file `k` issues. With `failAt ==
      Some(j)`, the statement after the first `j` steps throws and the
      continuation ends by marking the file as failed; `j` at least 12 is a
      throw after the success update (the notification), which the same
      handler catches. */
  function Script(k: Id, failAt: Wrappers.Option<nat>): (evs: seq<Event>)
    ensures forall i :: 0 <= i < |evs| ==> OwnUpdate(evs[i], k)
  {
    var steps := Steps(k);
    StepsOwn(k);
    match failAt
    case None => steps
    case Some(j) =>
      var n := if j < |steps| then j else |steps|;
      FailedPrefixOwn(steps, n, k);
      steps[..n] + [Failed(k)]
  }

  /** A prefix of own updates followed by the failure update is all own
      updates. */
  lemma FailedPrefixOwn(steps: seq<Event>, n: nat, k: Id)
    requires n <= |steps|
    requires forall i :: 0 <= i < |steps| ==> OwnUpdate(steps[i], k)
    ensures forall i :: 0 <= i < n + 1 ==> OwnUpdate((steps[..n] + [Failed(k)])[i], k)
  {
    var evs := steps[..n] + [Failed(k)];
    assert forall i :: 0 <= i < n ==> evs[i] == steps[i];
  }

  /** A progress or status update for id `k`. */
  predicate OwnUpdate(e: Event, k: Id) {
    (e.Progressed? || e.Succeeded? || e.Failed?) && e.id == k
  }

  lemma StepsOwn(k: Id)
    ensures forall i :: 0 <= i < |Steps(k)| ==> OwnUpdate(Steps(k)[i], k)
  {
  }

  /** The simulated progress of a file is bounded and strictly increasing,
      and success is written only right after progress 100. */
  lemma ScriptProgress(k: Id, failAt: Wrappers.Option<nat>)
    ensures var evs := Script(k, failAt);
            && (forall i :: 0 <= i < |evs| && evs[i].Progressed? ==> 0 <= evs[i].progress <= 100)
            && (forall i, j :: 0 <= i < j < |evs| && evs[i].Progressed? && evs[j].Progressed? ==>
                  evs[i].progress < evs[j].progress)
            && (forall i :: 0 <= i < |evs| && evs[i].Succeeded? ==> i >= 1 && evs[i - 1] == Progressed(k, 100))
  {
    var evs := Script(k, failAt);
    var steps := Steps(k);
    var n := |evs|;
    if failAt.Some? {
      var j := failAt.value;
      n := if j < 12 then j else 12;
      assert evs == steps[..n] + [Failed(k)];
      assert evs[n] == Failed(k);
    }
    assert forall i :: 0 <= i < n ==> evs[i] == steps[i];
    assert forall i :: 0 <= i < |evs| && evs[i].Progressed? ==> i <= 10 && evs[i].progress == 10 * i;
  }

  lemma {:induction false} RunProgress(x: UploadedFile, ticks: seq<int>)
    requires |ticks| >= 1
    ensures ApplyAll([x], ProgressEvents(x.id, ticks)) == [x.(progress := ticks[|ticks| - 1])]
    decreases |ticks|
  {
    var evs := ProgressEvents(x.id, ticks);
    var y := x.(progress := ticks[0]);
    assert Apply([x], evs[0]) == [y];
    if |ticks| > 1 {
      assert evs[1..] == ProgressEvents(y.id, ticks[1..]);
      RunProgress(y, ticks[1..]);
    } else {
      assert evs[1..] == [];
    }
  }

  /** A file whose continuation runs to the end, however it is interleaved
      with the other files' events, ends successful at progress 100. */
  lemma UploadSucceeds(list: seq<UploadedFile>, evs: seq<Event>, x: UploadedFile)
    requires EntriesOf(list, x.id) == [x]
    requires Restrict(evs, x.id) == Script(x.id, Wrappers.None)
    ensures EntriesOf(ApplyAll(list, evs), x.id) == [x.(progress := 100, status := Success)]
  {
    var k := x.id;
    ProjectAll(list, evs, k);
    RunSteps(x, 12);
    assert Steps(k)[..12] == Steps(k);
  }

  /** A file whose continuation throws after `j` steps ends failed, keeping
      the last progress written before the throw. */
  lemma UploadFails(list: seq<UploadedFile>, evs: seq<Event>, x: UploadedFile, j: nat)
    requires EntriesOf(list, x.id) == [x]
    requires Restrict(evs, x.id) == Script(x.id, Wrappers.Some(j))
    ensures EntriesOf(ApplyAll(list, evs), x.id)
            == [x.(progress := ProgressAfter(x, j),
                   status := Error)]
  {
    ProjectAll(list, evs, x.id);
    RunFailingScript(x, j);
  }

  lemma RunFailingScript(x: UploadedFile, j: nat)
    ensures ApplyAll([x], Script(x.id, Wrappers.Some(j)))
            == [x.(progress := ProgressAfter(x, j),
                   status := Error)]
  {
    var k := x.id;
    var n := if j < 12 then j else 12;
    var head := Steps(k)[..n];
    assert ProgressAfter(x, n) == ProgressAfter(x, j);
    ScriptFailShape(k, j);
    RunSteps(x, n);
    FailAfter(x, head, ApplyAll([x], head)[0]);
  }

  /** Marking the single entry as failed after `head` has run on it. */
  lemma FailAfter(x: UploadedFile, head: seq<Event>, y: UploadedFile)
    requires ApplyAll([x], head) == [y] && y.id == x.id
    ensures ApplyAll([x], head + [Failed(x.id)]) == [y.(status := Error)]
  {
    ApplyAllAppend([x], head, [Failed(x.id)]);
    assert ApplyAll([y], [Failed(x.id)]) == SetStatus([y], x.id, Error);
  }

  lemma ScriptFailShape(k: Id, j: nat)
    ensures Script(k, Wrappers.Some(j)) == Steps(k)[..if j < 12 then j else 12] + [Failed(k)]
  {
  }

  /** The progress a file shows after the first `n` steps of its
      continuation: the last tick written, or its progress before them when
      none was. */
  function ProgressAfter(x: UploadedFile, n: nat): int {
    if n == 0 then x.progress else 10 * ((if n < 11 then n else 11) - 1)
  }

  /** The first `n` steps of a file's continuation, run on its entry. */
  lemma RunSteps(x: UploadedFile, n: nat)
    requires n <= 12
    ensures ApplyAll([x], Steps(x.id)[..n])
            == [x.(progress := ProgressAfter(x, n),
                   status := if n == 12 then Success else x.status)]
  {
    var k := x.id;
    StepsFromLoop(k);
    TicksFromZero();
    if n == 0 {
      assert Steps(k)[..n] == [];
    } else if n <= 11 {
      assert Steps(k)[..n] == ProgressEvents(k, Ticks(LoopStart)[..n]);
      RunProgress(x, Ticks(LoopStart)[..n]);
    } else {
      assert Steps(k)[..n] == ProgressEvents(k, Ticks(LoopStart)) + [Succeeded(k)];
      ApplyAllAppend([x], ProgressEvents(k, Ticks(LoopStart)), [Succeeded(k)]);
      RunProgress(x, Ticks(LoopStart));
    }
  }
}
