/**
 Uploaded media: the automatic scan, the human review, and where the file ends up.

 The database row and the file system are changed one at a time. Scan verdicts are inputs, and so
 is whether a file operation succeeds.
 */
module Moderation {
  import opened Common

  datatype Status = Pending | Approved | Rejected | Review

  datatype MediaType = Image | Video | Audio | Document | Unknown

  datatype Path = Nowhere | InQuarantine(name: string) | InApproved(name: string)

  datatype Media = Media(filename: string, mediaType: MediaType, status: Status, path: Path, url: string)

  datatype Store = Store(rows: map<string, Media>, files: set<Path>)

  /** What the scan of an image says; `Failed` stands for an error of the scanning service. */
  datatype Scan = Clean | Explicit | Doubtful | Failed

  /** Only images are scanned; other known types are approved as they are. */
  function Verdict(t: MediaType, scan: Scan): Status {
    match t
    case Image => if scan == Clean then Approved else if scan == Explicit then Rejected else Review
    case Unknown => Review
    case _ => Approved
  }

  function UrlOf(id: string): string {
    "/media/" + id
  }

  // ---------- Single writes and file operations ----------

  function WriteStatus(s: Store, id: string, st: Status): Store
    requires id in s.rows
  {
    s.(rows := s.rows[id := s.rows[id].(status := st)])
  }

  function RenameFile(s: Store, name: string, ok: bool): Store {
    if ok && InQuarantine(name) in s.files
    then s.(files := s.files - {InQuarantine(name)} + {InApproved(name)})
    else s
  }

  function RemoveFile(s: Store, name: string, ok: bool): Store {
    if ok then s.(files := s.files - {InQuarantine(name)}) else s
  }

  function WriteApprovedPath(s: Store, id: string): Store
    requires id in s.rows
  {
    s.(rows := s.rows[id := s.rows[id].(path := InApproved(s.rows[id].filename), url := UrlOf(id))])
  }

  function WriteNoPath(s: Store, id: string): Store
    requires id in s.rows
  {
    s.(rows := s.rows[id := s.rows[id].(path := Nowhere)])
  }

  // ---------- Human review, one step ----------

  function ReviewStep(s: Store, id: string, approve: bool, ok: bool): Store {
    if id !in s.rows || s.rows[id].status != Review then s
    else if approve then
      if ok && InQuarantine(s.rows[id].filename) in s.files
      then WriteApprovedPath(WriteStatus(RenameFile(s, s.rows[id].filename, true), id, Approved), id)
      else s
    else WriteNoPath(WriteStatus(RemoveFile(s, s.rows[id].filename, ok), id, Rejected), id)
  }

  /** The whole of the automatic moderation, when nothing happens in between. */
  function ModerateStep(s: Store, id: string, scan: Scan, ok: bool): Store
    requires id in s.rows
  {
    var name, st := s.rows[id].filename, Verdict(s.rows[id].mediaType, scan);
    var marked := WriteStatus(s, id, st);
    match st
    case Approved => WriteApprovedPath(RenameFile(marked, name, ok), id)
    case Rejected => WriteNoPath(RemoveFile(marked, name, ok), id)
    case _ => marked
  }

  // ---------- Fetching ----------

  datatype GetReply = NoSuchMedia | AccessDenied | MediaRemoved | FileMissing | Served(path: Path)

  /** Others get approved items only; the file is looked for where the row says it is. */
  function GetStep(s: Store, id: string, isUploader: bool): GetReply {
    if id !in s.rows then NoSuchMedia
    else if s.rows[id].status != Approved && !isUploader then AccessDenied
    else if s.rows[id].status == Rejected then MediaRemoved
    else if s.rows[id].path !in s.files then FileMissing
    else Served(s.rows[id].path)
  }

  datatype Reply = Done | NotFound | NotPendingReview | MoveFailed

  class MediaStore {
    var rows: map<string, Media>
    var files: set<Path>

    ghost function Contents(): Store
      reads this
    {
      Store(rows, files)
    }

    constructor ()
      ensures Contents() == Store(map[], {})
    {
      rows, files := map[], {};
    }

    method Rename(from: Path, to: Path, works: bool) returns (ok: bool)
      modifies `files
      ensures ok <==> works && from in old(files)
      ensures files == if ok then old(files) - {from} + {to} else old(files)
    {
      ok := works && from in files;
      if ok {
        files := files - {from} + {to};
      }
    }

    method Remove(path: Path, works: bool)
      modifies `files
      ensures files == if works then old(files) - {path} else old(files)
    {
      if works {
        files := files - {path};
      }
    }

    method ProcessModeration(id: string, scan: Scan, works: bool)
      requires id in rows && rows[id].path == InQuarantine(rows[id].filename)
      modifies this
      ensures Contents() == ModerateStep(old(Contents()), id, scan, works)
      ensures rows.Keys == old(rows).Keys && rows[id].mediaType == old(rows)[id].mediaType
      ensures rows[id].status == Approved <==>
              rows[id].mediaType in {Video, Audio, Document} || (rows[id].mediaType == Image && scan == Clean)
      ensures rows[id].status == Rejected <==> rows[id].mediaType == Image && scan == Explicit
      ensures rows[id].status == Review <==>
              rows[id].mediaType == Unknown || (rows[id].mediaType == Image && scan in {Doubtful, Failed})
    {
      var media := rows[id];
      var status := Review;
      match media.mediaType {
        case Image =>
          match scan {
            case Clean => status := Approved;
            case Explicit => status := Rejected;
            case Doubtful => status := Review;
            case Failed =>
              rows := rows[id := rows[id].(status := Review)];
              return;
          }
        case Video => status := Approved;
        case Audio => status := Approved;
        case Document => status := Approved;
        case Unknown => status := Review;
      }
      rows := rows[id := rows[id].(status := status)];
      if status == Approved {
        var newPath := InApproved(media.filename);
        var _ := Rename(media.path, newPath, works);
        rows := rows[id := rows[id].(path := newPath, url := UrlOf(id))];
      } else if status == Rejected {
        Remove(media.path, works);
        rows := rows[id := rows[id].(path := Nowhere)];
      }
    }

    method GetMedia(id: string, isUploader: bool) returns (reply: GetReply)
      ensures reply == GetStep(Contents(), id, isUploader)
      ensures reply == NoSuchMedia <==> id !in rows
      ensures reply == AccessDenied <==> id in rows && rows[id].status != Approved && !isUploader
      ensures reply == MediaRemoved <==> id in rows && rows[id].status == Rejected && isUploader
      ensures reply.Served? ==> reply.path == rows[id].path && rows[id].path in files
    {
      if id !in rows {
        return NoSuchMedia;
      }
      var media := rows[id];
      if media.status != Approved && !isUploader {
        return AccessDenied;
      }
      if media.status == Rejected {
        return MediaRemoved;
      }
      if media.path !in files {
        return FileMissing;
      }
      return Served(media.path);
    }

    /** A whole review, with no other request in between. */
    method ReviewMedia(id: string, approve: bool, works: bool) returns (reply: Reply)
      requires id in rows && rows[id].status == Review ==> rows[id].path == InQuarantine(rows[id].filename)
      modifies this
      ensures Contents() == ReviewStep(old(Contents()), id, approve, works)
      ensures reply == NotFound <==> id !in old(rows)
      ensures reply == NotPendingReview <==> id in old(rows) && old(rows)[id].status != Review
      ensures reply == MoveFailed <==>
                && id in old(rows) && old(rows)[id].status == Review && approve
                && !(works && InQuarantine(old(rows)[id].filename) in old(files))
      ensures reply == MoveFailed ==> Contents() == old(Contents())
    {
      if id !in rows {
        return NotFound;
      }
      var media := rows[id];
      if media.status != Review {
        return NotPendingReview;
      }
      if approve {
        var newPath := InApproved(media.filename);
        var ok := Rename(media.path, newPath, works);
        if !ok {
          return MoveFailed;
        }
        rows := rows[id := media.(status := Approved, path := newPath, url := UrlOf(id))];
      } else {
        Remove(media.path, works);
        rows := rows[id := media.(status := Rejected, path := Nowhere)];
      }
      return Done;
    }
  }

  // ---------- Moderation and reviews interleaved ----------

  /** Where the moderation of one item is. */
  datatype Stage = Scanning | Renaming | Pointing | Removing | Blanking | Finished

  /** A review that has read "review": it has yet to move or remove the file, or (`moved`) to write the row. */
  datatype Job = Job(id: string, approve: bool, moved: bool)

  datatype State = State(store: Store, stages: map<string, Stage>, reviews: map<nat, Job>, begun: set<nat>)

  const INIT := State(Store(map[], {}), map[], map[], {})

  datatype Event =
    | Upload(id: string, filename: string, mediaType: MediaType)
    | Scanned(id: string, scan: Scan)
    | Renamed(id: string, ok: bool)
    | Pointed(id: string)
    | Removed(id: string, ok: bool)
    | Blanked(id: string)
    | ReviewRead(review: nat, id: string, approve: bool)
    | ReviewFile(review: nat, ok: bool)
    | ReviewWrite(review: nat)

  predicate At(s: State, id: string, g: Stage) {
    id in s.stages && s.stages[id] == g && id in s.store.rows
  }

  /** Media ids and generated file names are never reused. */
  ghost predicate Enabled(s: State, e: Event) {
    match e
    case Upload(id, name, _) =>
      && id !in s.store.rows && id !in s.stages
      && InQuarantine(name) !in s.store.files && InApproved(name) !in s.store.files
      && forall j :: j in s.store.rows ==> s.store.rows[j].filename != name
    case Scanned(id, _) => At(s, id, Scanning)
    case Renamed(id, _) => At(s, id, Renaming)
    case Pointed(id) => At(s, id, Pointing)
    case Removed(id, _) => At(s, id, Removing)
    case Blanked(id) => At(s, id, Blanking)
    case ReviewRead(r, _, _) => r !in s.begun
    case ReviewFile(r, _) => r in s.reviews && !s.reviews[r].moved
    case ReviewWrite(r) => r in s.reviews && s.reviews[r].moved
  }

  /** The item that an event is about. */
  function Subject(s: State, e: Event): string {
    match e
    case ReviewFile(r, _) => if r in s.reviews then s.reviews[r].id else ""
    case ReviewWrite(r) => if r in s.reviews then s.reviews[r].id else ""
    case _ => e.id
  }

  function DecisionOf(approve: bool): Status {
    if approve then Approved else Rejected
  }

  /** The file operation of a review; approving ends without a change when the move fails. */
  function FileStep(s: State, r: nat, ok: bool): State {
    if r !in s.reviews || s.reviews[r].id !in s.store.rows then s
    else
      var job := s.reviews[r];
      var name := s.store.rows[job.id].filename;
      if !job.approve
      then s.(store := RemoveFile(s.store, name, ok), reviews := s.reviews[r := job.(moved := true)])
      else if ok && InQuarantine(name) in s.store.files
      then s.(store := RenameFile(s.store, name, true), reviews := s.reviews[r := job.(moved := true)])
      else s.(reviews := s.reviews - {r})
  }

  function WriteStep(s: State, r: nat): State {
    if r !in s.reviews || s.reviews[r].id !in s.store.rows then s
    else
      var job := s.reviews[r];
      var marked := WriteStatus(s.store, job.id, DecisionOf(job.approve));
      s.(store := if job.approve then WriteApprovedPath(marked, job.id) else WriteNoPath(marked, job.id),
         reviews := s.reviews - {r})
  }

  function Apply(s: State, e: Event): State {
    match e
    case Upload(id, name, t) =>
      s.(store := Store(s.store.rows[id := Media(name, t, Pending, InQuarantine(name), "")],
                        s.store.files + {InQuarantine(name)}),
         stages := s.stages[id := Scanning])
    case Scanned(id, scan) =>
      if id !in s.store.rows then s
      else
        var st := Verdict(s.store.rows[id].mediaType, scan);
        s.(store := WriteStatus(s.store, id, st),
           stages := s.stages[id := if st == Approved then Renaming else if st == Rejected then Removing else Finished])
    case Renamed(id, ok) =>
      if id !in s.store.rows then s
      else s.(store := RenameFile(s.store, s.store.rows[id].filename, ok), stages := s.stages[id := Pointing])
    case Pointed(id) =>
      if id !in s.store.rows then s
      else s.(store := WriteApprovedPath(s.store, id), stages := s.stages[id := Finished])
    case Removed(id, ok) =>
      if id !in s.store.rows then s
      else s.(store := RemoveFile(s.store, s.store.rows[id].filename, ok), stages := s.stages[id := Blanking])
    case Blanked(id) =>
      if id !in s.store.rows then s
      else s.(store := WriteNoPath(s.store, id), stages := s.stages[id := Finished])
    case ReviewRead(r, id, approve) =>
      s.(begun := s.begun + {r},
         reviews := if id in s.store.rows && s.store.rows[id].status == Review
                    then s.reviews[r := Job(id, approve, false)] else s.reviews)
    case ReviewFile(r, ok) => FileStep(s, r, ok)
    case ReviewWrite(r) => WriteStep(s, r)
  }

  function After(es: seq<Event>): State
    decreases |es|
  {
    if es == [] then INIT else Apply(After(Before(es)), Last(es))
  }

  ghost predicate Possible(es: seq<Event>)
    decreases |es|
  {
    es == [] || (Possible(Before(es)) && Enabled(After(Before(es)), Last(es)))
  }

  /** One more event. */
  lemma Extend(es: seq<Event>, e: Event)
    requires Possible(es) && Enabled(After(es), e)
    ensures Possible(es + [e]) && After(es + [e]) == Apply(After(es), e)
  {
    assert Before(es + [e]) == es;
  }

  /** The event tries the file operation that the item's final status calls for, and it does not work. */
  predicate OperationFails(s: State, e: Event, id: string) {
    || e == Renamed(id, false) || e == Removed(id, false)
    || (e.ReviewFile? && !e.ok && e.review in s.reviews && s.reviews[e.review].id == id && !s.reviews[e.review].approve)
  }

  predicate FileOperationFailed(es: seq<Event>, id: string)
    decreases |es|
  {
    es != [] && (OperationFails(After(Before(es)), Last(es), id) || FileOperationFailed(Before(es), id))
  }

  // ---------- What holds however reviews overlap ----------

  /** Rows are only added, and keep their file name; an event about another item leaves a row alone. */
  lemma StepRows(s: State, e: Event, id: string)
    requires Enabled(s, e)
    ensures id in Apply(s, e).store.rows <==> id in s.store.rows || (e.Upload? && e.id == id)
    ensures id in Apply(s, e).stages <==> id in s.stages || (e.Upload? && e.id == id)
    ensures id in s.store.rows ==> Apply(s, e).store.rows[id].filename == s.store.rows[id].filename
    ensures id in s.store.rows && Subject(s, e) != id ==> Apply(s, e).store.rows[id] == s.store.rows[id]
    ensures e.Upload? ==> Apply(s, e).store.rows[e.id].filename == e.filename
  {
  }

  lemma {:induction false} NamesDistinct(es: seq<Event>, i: string, j: string)
    requires Possible(es) && i in After(es).store.rows && j in After(es).store.rows && i != j
    ensures After(es).store.rows[i].filename != After(es).store.rows[j].filename
    decreases |es|
  {
    StepRows(After(Before(es)), Last(es), i);
    StepRows(After(Before(es)), Last(es), j);
    if i in After(Before(es)).store.rows && j in After(Before(es)).store.rows {
      NamesDistinct(Before(es), i, j);
    }
  }

  /** An item's status as its stage prescribes; only finished items are reviewed. */
  ghost predicate Tracked(s: State, id: string) {
    && (id in s.store.rows <==> id in s.stages)
    && (forall r :: r in s.reviews && s.reviews[r].id == id ==> At(s, id, Finished))
    && (id in s.store.rows ==>
         match s.stages[id]
         case Scanning => s.store.rows[id].status == Pending
         case Renaming => s.store.rows[id].status == Approved
         case Pointing => s.store.rows[id].status == Approved
         case Removing => s.store.rows[id].status == Rejected
         case Blanking => s.store.rows[id].status == Rejected
         case Finished => s.store.rows[id].status != Pending)
  }

  lemma StepTracked(s: State, e: Event, id: string)
    requires Tracked(s, id) && Enabled(s, e)
    ensures Tracked(Apply(s, e), id)
  {
  }

  lemma {:induction false} RunTracked(es: seq<Event>, id: string)
    requires Possible(es)
    ensures Tracked(After(es), id) && After(es).reviews.Keys <= After(es).begun
    ensures id !in After(es).store.rows ==> !FileOperationFailed(es, id)
    decreases |es|
  {
    if es != [] {
      RunTracked(Before(es), id);
      StepTracked(After(Before(es)), Last(es), id);
      StepRows(After(Before(es)), Last(es), id);
    }
  }

  // ---------- When a verdict changes ----------

  /** The event writes the verdict of a review of the item. */
  predicate Writes(s: State, e: Event, id: string) {
    e.ReviewWrite? && e.review in s.reviews && s.reviews[e.review].id == id
  }

  /** The status leaves "review" only by the write of a review, and a verdict changes only by a different one. */
  lemma StepStatus(s: State, e: Event, id: string)
    requires Tracked(s, id) && Enabled(s, e) && At(s, id, Finished)
    ensures At(Apply(s, e), id, Finished)
    ensures Apply(s, e).store.rows[id].status ==
            if Writes(s, e, id) then DecisionOf(s.reviews[e.review].approve) else s.store.rows[id].status
  {
  }

  lemma StepVerdict(s: State, e: Event, id: string)
    requires Tracked(s, id) && Enabled(s, e) && id in s.store.rows && s.store.rows[id].status in {Approved, Rejected}
    ensures id in Apply(s, e).store.rows
    ensures Apply(s, e).store.rows[id].status ==
            if Writes(s, e, id) then DecisionOf(s.reviews[e.review].approve) else s.store.rows[id].status
  {
  }

  /** The event at position `i` starts a review that reads "review" on the item. */
  predicate Reads(es: seq<Event>, i: nat, r: nat, id: string) {
    i < |es| && es[i].ReviewRead? && es[i].review == r && es[i].id == id
    && id in After(es[..i]).store.rows && After(es[..i]).store.rows[id].status == Review
  }

  predicate WritesAt(es: seq<Event>, j: nat, id: string) {
    j < |es| && Writes(After(es[..j]), es[j], id)
  }

  /** Reviews enter the flight by reading "review", and keep their item. */
  lemma StepReview(s: State, e: Event, r: nat)
    requires Enabled(s, e) && r in Apply(s, e).reviews && s.reviews.Keys <= s.begun
    ensures if r in s.reviews then Apply(s, e).reviews[r].id == s.reviews[r].id
            else e.ReviewRead? && e.review == r && e.id == Apply(s, e).reviews[r].id
                 && e.id in s.store.rows && s.store.rows[e.id].status == Review
  {
  }

  /** A review in flight has read "review". */
  lemma {:induction false} InFlightHasRead(es: seq<Event>, r: nat, id: string)
    requires Possible(es) && r in After(es).reviews && After(es).reviews[r].id == id
    ensures exists i: nat :: Reads(es, i, r, id)
    decreases |es|
  {
    RunTracked(Before(es), id);
    StepReview(After(Before(es)), Last(es), r);
    if r in After(Before(es)).reviews {
      InFlightHasRead(Before(es), r, id);
      var i: nat :| Reads(Before(es), i, r, id);
      assert Before(es)[..i] == es[..i];
      assert Reads(es, i, r, id);
    } else {
      assert es[..|es| - 1] == Before(es);
      assert Reads(es, |es| - 1, r, id);
    }
  }

  /** Between a moment of "review" and one without, a review writes. */
  lemma {:induction false} LeavesReviewByWrite(es: seq<Event>, i: nat, id: string)
    requires Possible(es) && i <= |es|
    requires id in After(es[..i]).store.rows && After(es[..i]).store.rows[id].status == Review
    ensures id in After(es).store.rows
    ensures After(es).store.rows[id].status != Review ==> exists j: nat :: i <= j && WritesAt(es, j, id)
    decreases |es|
  {
    if i == |es| {
      assert es[..i] == es;
    } else {
      assert Before(es)[..i] == es[..i] && es[..|es| - 1] == Before(es);
      LeavesReviewByWrite(Before(es), i, id);
      RunTracked(Before(es), id);
      StepRows(After(Before(es)), Last(es), id);
      if After(Before(es)).store.rows[id].status == Review {
        StepStatus(After(Before(es)), Last(es), id);
        assert Writes(After(Before(es)), Last(es), id) ==> WritesAt(es, |es| - 1, id);
      } else {
        var j: nat :| i <= j && WritesAt(Before(es), j, id);
        assert Before(es)[..j] == es[..j];
        assert WritesAt(es, j, id);
      }
    }
  }

  /** A review that writes at the end of the run had read "review" before another one wrote. */
  ghost predicate Overlapped(es: seq<Event>, r: nat, id: string) {
    exists i: nat, j: nat :: Reads(es, i, r, id) && i < j && WritesAt(es, j, id)
  }

  /**
   A verdict changes exactly when a review decides otherwise that had read "review" before another
   review of the item wrote, and writes after it.
   */
  lemma {:induction false} VerdictChangesIff(es: seq<Event>, e: Event, id: string)
    requires Possible(es) && Enabled(After(es), e)
    requires id in After(es).store.rows && After(es).store.rows[id].status in {Approved, Rejected}
    ensures id in Apply(After(es), e).store.rows
    ensures Apply(After(es), e).store.rows[id].status != After(es).store.rows[id].status <==>
            && Writes(After(es), e, id)
            && DecisionOf(After(es).reviews[e.review].approve) != After(es).store.rows[id].status
            && Overlapped(es, e.review, id)
  {
    RunTracked(es, id);
    StepVerdict(After(es), e, id);
    if Writes(After(es), e, id) {
      var r := e.review;
      InFlightHasRead(es, r, id);
      var i: nat :| Reads(es, i, r, id);
      LeavesReviewByWrite(es, i, id);
      var j: nat :| i <= j && WritesAt(es, j, id);
      assert es[i].ReviewRead? && es[j].ReviewWrite?;
      assert i < j;
    }
  }

  // ---------- Which status an item has ----------

  /** The type of an uploaded item. */
  function TypeOf(es: seq<Event>, id: string): Option<MediaType>
    decreases |es|
  {
    if es == [] then None
    else if Last(es).Upload? && Last(es).id == id then Some(Last(es).mediaType)
    else TypeOf(Before(es), id)
  }

  /** What the scan of an item said, once it has been scanned. */
  function ScanOf(es: seq<Event>, id: string): Option<Scan>
    decreases |es|
  {
    if es == [] then None
    else if Last(es).Scanned? && Last(es).id == id then Some(Last(es).scan)
    else ScanOf(Before(es), id)
  }

  /** What a review was started on, and with which decision. */
  function StartedOn(es: seq<Event>, r: nat): Option<(string, bool)>
    decreases |es|
  {
    if es == [] then None
    else if Last(es).ReviewRead? && Last(es).review == r then Some((Last(es).id, Last(es).approve))
    else StartedOn(Before(es), r)
  }

  /** The decision of the review of the item that wrote last. */
  function LastDecision(es: seq<Event>, id: string): Option<bool>
    decreases |es|
  {
    if es == [] then None
    else
      var started := if Last(es).ReviewWrite? then StartedOn(es, Last(es).review) else None;
      if started.Some? && started.value.0 == id then Some(started.value.1) else LastDecision(Before(es), id)
  }

  lemma StepJob(s: State, e: Event, r: nat)
    requires Enabled(s, e) && s.reviews.Keys <= s.begun && r in Apply(s, e).reviews
    ensures if e.ReviewRead? && e.review == r then Apply(s, e).reviews[r] == Job(e.id, e.approve, false)
            else r in s.reviews && Apply(s, e).reviews[r].id == s.reviews[r].id
                 && Apply(s, e).reviews[r].approve == s.reviews[r].approve
  {
  }

  lemma {:induction false} JobAsStarted(es: seq<Event>, r: nat)
    requires Possible(es)
    ensures r in After(es).reviews ==>
              StartedOn(es, r) == Some((After(es).reviews[r].id, After(es).reviews[r].approve))
    decreases |es|
  {
    if es != [] {
      JobAsStarted(Before(es), r);
      RunTracked(Before(es), "");
      if r in After(es).reviews {
        StepJob(After(Before(es)), Last(es), r);
      }
    }
  }

  /** The verdict of the automatic moderation, by the type of the item and what its scan said. */
  predicate ScannedAs(t: MediaType, scan: Scan, st: Status) {
    && (st == Approved <==> t in {Video, Audio, Document} || (t == Image && scan == Clean))
    && (st == Rejected <==> t == Image && scan == Explicit)
    && (st == Review <==> t == Unknown || (t == Image && scan in {Doubtful, Failed}))
  }

  /** An item's status, as its type, its scan and the decisions on it say. */
  ghost predicate StatusMatches(s: State, id: string,
                                t: Option<MediaType>, scan: Option<Scan>, decision: Option<bool>) {
    && (id in s.store.rows <==> t.Some?)
    && (id in s.store.rows ==>
         var m := s.store.rows[id];
         && id in s.stages && m.mediaType == t.value && (scan.None? <==> s.stages[id] == Scanning)
         && (scan.None? ==> decision.None? && m.status == Pending)
         && (scan.Some? && decision.None? ==> ScannedAs(t.value, scan.value, m.status))
         && (decision.Some? ==> m.status == if decision.value then Approved else Rejected))
    && (id !in s.store.rows ==> scan.None? && decision.None?)
  }

  lemma StepStatusMatches(s: State, e: Event, id: string,
                          t: Option<MediaType>, scan: Option<Scan>, decision: Option<bool>)
    requires Enabled(s, e) && Tracked(s, id) && StatusMatches(s, id, t, scan, decision)
    ensures StatusMatches(Apply(s, e), id,
                          if e.Upload? && e.id == id then Some(e.mediaType) else t,
                          if e.Scanned? && e.id == id then Some(e.scan) else scan,
                          if Writes(s, e, id) then Some(s.reviews[e.review].approve) else decision)
  {
  }

  /**
   The status of every item at every moment, by the events alone: pending until its scan; then what
   its type and its scan say; and from the first write of a review on, what the last one decided.
   */
  lemma {:induction false} StatusByHistory(es: seq<Event>, id: string)
    requires Possible(es)
    ensures StatusMatches(After(es), id, TypeOf(es, id), ScanOf(es, id), LastDecision(es, id))
    decreases |es|
  {
    if es != [] {
      StatusByHistory(Before(es), id);
      RunTracked(Before(es), id);
      var s, e := After(Before(es)), Last(es);
      StepStatusMatches(s, e, id, TypeOf(Before(es), id), ScanOf(Before(es), id), LastDecision(Before(es), id));
      if e.ReviewWrite? {
        JobAsStarted(Before(es), e.review);
      }
    }
  }

  // ---------- Requests with nothing in between ----------

  /** The steps of the automatic moderation of one item. */
  function ModerationSteps(id: string, t: MediaType, scan: Scan, ok: bool): seq<Event> {
    [Scanned(id, scan)]
    + match Verdict(t, scan)
      case Approved => [Renamed(id, ok), Pointed(id)]
      case Rejected => [Removed(id, ok), Blanked(id)]
      case _ => []
  }

  lemma ExtendTwo(es: seq<Event>, a: Event, b: Event)
    requires Possible(es) && Enabled(After(es), a) && Enabled(Apply(After(es), a), b)
    ensures Possible(es + [a, b]) && After(es + [a, b]) == Apply(Apply(After(es), a), b)
  {
    Extend(es, a);
    Extend(es + [a], b);
    assert es + [a] + [b] == es + [a, b];
  }

  lemma ThenTwo(es: seq<Event>, first: Event, a: Event, b: Event, s1: State, s2: State)
    requires Possible(es) && Enabled(After(es), first) && s1 == Apply(After(es), first)
    requires Enabled(s1, a) && s2 == Apply(s1, a) && Enabled(s2, b)
    ensures Possible(es + ([first] + [a, b])) && After(es + ([first] + [a, b])) == Apply(s2, b)
  {
    Extend(es, first);
    ThenTwoMore(es + [first], a, b, s2);
    assert es + [first] + [a, b] == es + ([first] + [a, b]);
  }

  lemma ThenTwoMore(es: seq<Event>, a: Event, b: Event, s2: State)
    requires Possible(es) && Enabled(After(es), a) && s2 == Apply(After(es), a) && Enabled(s2, b)
    ensures Possible(es + [a, b]) && After(es + [a, b]) == Apply(s2, b)
  {
    ExtendTwo(es, a, b);
  }

  lemma WholeApproval(s: State, id: string, scan: Scan, ok: bool)
    requires At(s, id, Scanning) && Verdict(s.store.rows[id].mediaType, scan) == Approved
    ensures var s1 := Apply(s, Scanned(id, scan));
            var s2 := Apply(s1, Renamed(id, ok));
            var s3 := Apply(s2, Pointed(id));
            && Enabled(s1, Renamed(id, ok)) && Enabled(s2, Pointed(id)) && At(s3, id, Finished)
            && s3.store == ModerateStep(s.store, id, scan, ok)
  {
  }

  lemma WholeRejection(s: State, id: string, scan: Scan, ok: bool)
    requires At(s, id, Scanning) && Verdict(s.store.rows[id].mediaType, scan) == Rejected
    ensures var s1 := Apply(s, Scanned(id, scan));
            var s2 := Apply(s1, Removed(id, ok));
            var s3 := Apply(s2, Blanked(id));
            && Enabled(s1, Removed(id, ok)) && Enabled(s2, Blanked(id)) && At(s3, id, Finished)
            && s3.store == ModerateStep(s.store, id, scan, ok)
  {
  }

  /** The moderation of an item that nothing interrupts is one `ModerateStep`. */
  lemma WholeModeration(es: seq<Event>, id: string, scan: Scan, ok: bool)
    requires Possible(es) && At(After(es), id, Scanning)
    ensures var s := After(es);
            var es' := es + ModerationSteps(id, s.store.rows[id].mediaType, scan, ok);
            && Possible(es') && At(After(es'), id, Finished)
            && After(es').store == ModerateStep(s.store, id, scan, ok)
  {
    var s := After(es);
    var t := s.store.rows[id].mediaType;
    Extend(es, Scanned(id, scan));
    match Verdict(t, scan)
    case Approved =>
      WholeApproval(s, id, scan, ok);
      var s1 := Apply(s, Scanned(id, scan));
      ThenTwo(es, Scanned(id, scan), Renamed(id, ok), Pointed(id), s1, Apply(s1, Renamed(id, ok)));
    case Rejected =>
      WholeRejection(s, id, scan, ok);
      var s1 := Apply(s, Scanned(id, scan));
      ThenTwo(es, Scanned(id, scan), Removed(id, ok), Blanked(id), s1, Apply(s1, Removed(id, ok)));
    case Review =>
      assert ModerationSteps(id, t, scan, ok) == [Scanned(id, scan)];
    case Pending =>
  }

  /** The steps of a review: it goes on only if it reads "review", and writes only if an approved file moves. */
  function ReviewSteps(s: State, r: nat, id: string, approve: bool, ok: bool): seq<Event> {
    if id !in s.store.rows || s.store.rows[id].status != Review then [ReviewRead(r, id, approve)]
    else if approve && !(ok && InQuarantine(s.store.rows[id].filename) in s.store.files)
    then [ReviewRead(r, id, approve), ReviewFile(r, ok)]
    else [ReviewRead(r, id, approve)] + [ReviewFile(r, ok), ReviewWrite(r)]
  }

  lemma ReviewOfOther(s: State, r: nat, id: string, approve: bool, ok: bool)
    requires Tracked(s, id) && r !in s.begun && r !in s.reviews
    requires id !in s.store.rows || s.store.rows[id].status != Review
    ensures var s1 := Apply(s, ReviewRead(r, id, approve));
            r !in s1.reviews && s1.store == ReviewStep(s.store, id, approve, ok)
  {
  }

  lemma ReviewStuck(s: State, r: nat, id: string, ok: bool)
    requires Tracked(s, id) && r !in s.begun && id in s.store.rows && s.store.rows[id].status == Review
    requires !(ok && InQuarantine(s.store.rows[id].filename) in s.store.files)
    ensures var s1 := Apply(s, ReviewRead(r, id, true));
            && Enabled(s1, ReviewFile(r, ok))
            && var s2 := Apply(s1, ReviewFile(r, ok));
               r !in s2.reviews && s2.store == ReviewStep(s.store, id, true, ok)
  {
  }

  lemma ReviewWritten(s: State, r: nat, id: string, approve: bool, ok: bool)
    requires Tracked(s, id) && r !in s.begun && id in s.store.rows && s.store.rows[id].status == Review
    requires approve ==> ok && InQuarantine(s.store.rows[id].filename) in s.store.files
    ensures var s1 := Apply(s, ReviewRead(r, id, approve));
            && Enabled(s1, ReviewFile(r, ok))
            && var s2 := Apply(s1, ReviewFile(r, ok));
            && Enabled(s2, ReviewWrite(r))
            && var s3 := Apply(s2, ReviewWrite(r));
               r !in s3.reviews && s3.store == ReviewStep(s.store, id, approve, ok)
  {
  }

  /** A review that nothing interrupts is one `ReviewStep`. */
  lemma WholeReview(es: seq<Event>, r: nat, id: string, approve: bool, ok: bool)
    requires Possible(es) && r !in After(es).begun
    ensures var s, es' := After(es), es + ReviewSteps(After(es), r, id, approve, ok);
            && Possible(es') && After(es').store == ReviewStep(s.store, id, approve, ok)
            && r !in After(es').reviews
  {
    var s := After(es);
    RunTracked(es, id);
    if id !in s.store.rows || s.store.rows[id].status != Review {
      ReviewOfOther(s, r, id, approve, ok);
      Extend(es, ReviewRead(r, id, approve));
    } else if approve && !(ok && InQuarantine(s.store.rows[id].filename) in s.store.files) {
      ReviewStuck(s, r, id, ok);
      ExtendTwo(es, ReviewRead(r, id, approve), ReviewFile(r, ok));
    } else {
      ReviewWritten(s, r, id, approve, ok);
      var s1 := Apply(s, ReviewRead(r, id, approve));
      ThenTwo(es, ReviewRead(r, id, approve), ReviewFile(r, ok), ReviewWrite(r), s1, Apply(s1, ReviewFile(r, ok)));
    }
  }

  // ---------- Items whose reviews do not overlap ----------

  ghost predicate AtMostOneReview(s: State, id: string) {
    forall r, r' :: r in s.reviews && r' in s.reviews && s.reviews[r].id == id && s.reviews[r'].id == id ==> r == r'
  }

  /** At no moment are two reviews of the item under way. */
  ghost predicate ReviewedOneByOne(es: seq<Event>, id: string)
    decreases |es|
  {
    AtMostOneReview(After(es), id) && (es == [] || ReviewedOneByOne(Before(es), id))
  }

  /** A review of the item has moved (or removed) the file and not yet written the row. */
  predicate MovedBy(s: State, id: string, approve: bool) {
    exists r :: r in s.reviews && s.reviews[r] == Job(id, approve, true)
  }

  /** Where the file of an item under review is; `failed` as above. */
  ghost predicate ReviewPlaced(s: State, id: string, quarantined: bool, approved: bool, failed: bool) {
    if MovedBy(s, id, true) then !quarantined && approved && !failed
    else if MovedBy(s, id, false) then quarantined == failed && !approved
    else quarantined && !approved && !failed
  }

  /** Where an item's row and file are at each stage. */
  ghost predicate Placed(s: State, id: string, failed: bool)
    requires id in s.store.rows && id in s.stages
  {
    var m := s.store.rows[id];
    var here, there := InQuarantine(m.filename) in s.store.files, InApproved(m.filename) in s.store.files;
    && (forall r :: r in s.reviews && s.reviews[r].id == id ==> m.status == Review)
    && (s.stages[id] != Finished || m.status == Review ==> (m.path == InQuarantine(m.filename) && m.url == ""))
    && match s.stages[id]
       case Scanning => here && !there && !failed
       case Renaming => here && !there && !failed
       case Pointing => here == failed && there == !failed
       case Removing => here && !there && !failed
       case Blanking => here == failed && !there
       case Finished =>
         match m.status
         case Pending => false
         case Review => ReviewPlaced(s, id, here, there, failed)
         case Approved => m.path == InApproved(m.filename) && m.url == UrlOf(id) && here == failed && there == !failed
         case Rejected => m.path == Nowhere && m.url == "" && here == failed && !there
  }

  /** A step of the item's own moderation. */
  lemma ModerationPlaced(s: State, e: Event, id: string, failed: bool)
    requires Enabled(s, e) && Tracked(s, id) && id in s.store.rows && Placed(s, id, failed)
    requires !e.ReviewRead? && !e.ReviewFile? && !e.ReviewWrite? && e.id == id
    ensures Placed(Apply(s, e), id, failed || OperationFails(s, e, id))
  {
  }

  lemma SameMoved(s: State, s': State, id: string, approve: bool)
    requires forall r :: r in s.reviews && s.reviews[r] == Job(id, approve, true) ==>
               r in s'.reviews && s'.reviews[r] == s.reviews[r]
    requires forall r :: r in s'.reviews && s'.reviews[r] == Job(id, approve, true) ==>
               r in s.reviews && s'.reviews[r] == s.reviews[r]
    ensures MovedBy(s', id, approve) <==> MovedBy(s, id, approve)
  {
  }

  lemma ReadPlaced(s: State, r: nat, approve: bool, id: string, failed: bool)
    requires Enabled(s, ReviewRead(r, id, approve)) && s.reviews.Keys <= s.begun
    requires Tracked(s, id) && id in s.store.rows && Placed(s, id, failed)
    ensures Placed(Apply(s, ReviewRead(r, id, approve)), id, failed)
  {
    var s' := Apply(s, ReviewRead(r, id, approve));
    assert r !in s.reviews;
    forall a
      ensures MovedBy(s', id, a) <==> MovedBy(s, id, a)
    {
      SameMoved(s, s', id, a);
    }
  }

  lemma FilePlaced(s: State, r: nat, ok: bool, id: string, failed: bool)
    requires Enabled(s, ReviewFile(r, ok)) && s.reviews[r].id == id && AtMostOneReview(s, id)
    requires Tracked(s, id) && id in s.store.rows && Placed(s, id, failed)
    ensures Placed(Apply(s, ReviewFile(r, ok)), id, failed || OperationFails(s, ReviewFile(r, ok), id))
  {
    var job, s' := s.reviews[r], Apply(s, ReviewFile(r, ok));
    assert !MovedBy(s, id, true) && !MovedBy(s, id, false);
    if r in s'.reviews {
      assert s'.reviews[r] == Job(id, job.approve, true);
      assert MovedBy(s', id, job.approve) && !MovedBy(s', id, !job.approve);
    } else {
      assert !MovedBy(s', id, true) && !MovedBy(s', id, false);
    }
  }

  lemma WritePlaced(s: State, r: nat, id: string, failed: bool)
    requires Enabled(s, ReviewWrite(r)) && s.reviews[r].id == id && AtMostOneReview(s, id)
    requires Tracked(s, id) && id in s.store.rows && Placed(s, id, failed)
    ensures Placed(Apply(s, ReviewWrite(r)), id, failed)
  {
    assert MovedBy(s, id, s.reviews[r].approve) && !MovedBy(s, id, !s.reviews[r].approve);
  }

  lemma StepPlaced(s: State, e: Event, id: string, failed: bool)
    requires Enabled(s, e) && Tracked(s, id) && id in s.store.rows && Placed(s, id, failed) && Subject(s, e) == id
    requires AtMostOneReview(s, id) && s.reviews.Keys <= s.begun
    ensures Placed(Apply(s, e), id, failed || OperationFails(s, e, id))
  {
    match e
    case ReviewRead(r, _, approve) => ReadPlaced(s, r, approve, id, failed);
    case ReviewFile(r, ok) => FilePlaced(s, r, ok, id, failed);
    case ReviewWrite(r) => WritePlaced(s, r, id, failed);
    case _ => ModerationPlaced(s, e, id, failed);
  }

  /** Other items have other files, and other reviews. */
  lemma StepElsewhere(s: State, e: Event, id: string, failed: bool)
    requires Enabled(s, e) && Tracked(s, id) && id in s.store.rows && Placed(s, id, failed) && Subject(s, e) != id
    requires s.reviews.Keys <= s.begun
    requires Subject(s, e) in s.store.rows ==>
               s.store.rows[Subject(s, e)].filename != s.store.rows[id].filename
    ensures Placed(Apply(s, e), id, failed) && !OperationFails(s, e, id)
  {
    FilesElsewhere(s, e, id);
    ReviewsElsewhere(s, e, id);
    StepRows(s, e, id);
  }

  lemma FilesElsewhere(s: State, e: Event, id: string)
    requires Enabled(s, e) && id in s.store.rows && Subject(s, e) != id
    requires Subject(s, e) in s.store.rows ==>
               s.store.rows[Subject(s, e)].filename != s.store.rows[id].filename
    ensures var name := s.store.rows[id].filename;
            && (InQuarantine(name) in Apply(s, e).store.files <==> InQuarantine(name) in s.store.files)
            && (InApproved(name) in Apply(s, e).store.files <==> InApproved(name) in s.store.files)
  {
  }

  ghost predicate SameReviews(s: State, s': State, id: string) {
    && (forall r :: r in s.reviews && s.reviews[r].id == id ==> r in s'.reviews && s'.reviews[r] == s.reviews[r])
    && (forall r :: r in s'.reviews && s'.reviews[r].id == id ==> r in s.reviews && s'.reviews[r] == s.reviews[r])
  }

  lemma StepSameReviews(s: State, e: Event, id: string)
    requires Enabled(s, e) && Subject(s, e) != id && s.reviews.Keys <= s.begun
    ensures SameReviews(s, Apply(s, e), id)
  {
  }

  lemma ReviewsElsewhere(s: State, e: Event, id: string)
    requires Enabled(s, e) && Subject(s, e) != id && s.reviews.Keys <= s.begun
    ensures SameReviews(s, Apply(s, e), id)
    ensures forall a :: MovedBy(Apply(s, e), id, a) <==> MovedBy(s, id, a)
    ensures id in s.stages ==> id in Apply(s, e).stages && Apply(s, e).stages[id] == s.stages[id]
  {
    StepSameReviews(s, e, id);
    var s' := Apply(s, e);
    forall a
      ensures MovedBy(s', id, a) <==> MovedBy(s, id, a)
    {
      SameMoved(s, s', id, a);
    }
  }

  /** Row and file agree at every moment, if the item's reviews do not overlap. */
  lemma {:induction false} RowAndFileAgree(es: seq<Event>, id: string)
    requires Possible(es) && id in After(es).store.rows && ReviewedOneByOne(es, id)
    ensures id in After(es).stages && Placed(After(es), id, FileOperationFailed(es, id))
    decreases |es|
  {
    var s, e := After(Before(es)), Last(es);
    StepRows(s, e, id);
    RunTracked(Before(es), id);
    if id in s.store.rows {
      RowAndFileAgree(Before(es), id);
      if Subject(s, e) == id {
        StepPlaced(s, e, id, FileOperationFailed(Before(es), id));
      } else {
        if Subject(s, e) in s.store.rows {
          NamesDistinct(Before(es), Subject(s, e), id);
        }
        StepElsewhere(s, e, id, FileOperationFailed(Before(es), id));
      }
    }
  }

  /** Approved and rejected are never left once entered, if the item's reviews do not overlap. */
  lemma {:induction false} VerdictIsFinal(es: seq<Event>, k: nat, id: string)
    requires Possible(es) && k <= |es| && id in After(es[..k]).store.rows && ReviewedOneByOne(es, id)
    requires After(es[..k]).store.rows[id].status in {Approved, Rejected}
    ensures id in After(es).store.rows && After(es).store.rows[id].status == After(es[..k]).store.rows[id].status
    decreases |es|
  {
    if k == |es| {
      assert es[..k] == es;
    } else {
      assert Before(es)[..k] == es[..k];
      VerdictIsFinal(Before(es), k, id);
      RunTracked(Before(es), id);
      StepVerdict(After(Before(es)), Last(es), id);
      RowAndFileAgree(Before(es), id);
    }
  }

  /**
   The row names the place where the file is: not between the moderation's move and the row's new
   path, nor between a review's file operation and its write; and no move has failed.
   */
  predicate PathIsCurrent(s: State, id: string, failed: bool)
    requires id in s.store.rows && id in s.stages
  {
    match s.stages[id]
    case Pointing => failed
    case Finished =>
      (match s.store.rows[id].status
       case Review => !MovedBy(s, id, true) && (MovedBy(s, id, false) ==> failed)
       case Approved => !failed
       case _ => true)
    case _ => true
  }

  /**
   Once its moderation has finished, an item under review is in quarantine unless a review is about
   to write, an approved item has a URL and is in approved storage, and a rejected item has no path
   and no file; unless the file operation failed: then, and only then, the file is still in
   quarantine.
   */
  lemma FinishedOutcome(es: seq<Event>, id: string)
    requires Possible(es) && At(After(es), id, Finished) && ReviewedOneByOne(es, id)
    ensures var m, files := After(es).store.rows[id], After(es).store.files;
            && m.status != Pending
            && (m.status == Review ==>
                 && m.path == InQuarantine(m.filename)
                 && (m.path in files <==> PathIsCurrent(After(es), id, FileOperationFailed(es, id))))
            && (m.status == Approved ==>
                 && m.path == InApproved(m.filename) && m.url == "/media/" + id
                 && (m.path in files <==> !FileOperationFailed(es, id)))
            && (m.status == Rejected ==>
                 && m.path == Nowhere && InApproved(m.filename) !in files
                 && (InQuarantine(m.filename) in files <==> FileOperationFailed(es, id)))
  {
    RowAndFileAgree(es, id);
    RunTracked(es, id);
  }

  /** A file is in approved storage only while its item is approved, or an approving review is about to write. */
  lemma OnlyApprovedStored(es: seq<Event>, id: string)
    requires Possible(es) && id in After(es).store.rows && ReviewedOneByOne(es, id)
    requires InApproved(After(es).store.rows[id].filename) in After(es).store.files
    ensures After(es).store.rows[id].status == Approved || MovedBy(After(es), id, true)
  {
    RowAndFileAgree(es, id);
    RunTracked(es, id);
  }

  /**
   When an item can be fetched, at any moment: it is approved, or its uploader asks and it is not
   rejected; and its row names the place where the file is.
   */
  lemma FetchableIff(es: seq<Event>, id: string, isUploader: bool)
    requires Possible(es) && id in After(es).store.rows && ReviewedOneByOne(es, id)
    ensures id in After(es).stages
    ensures var st := After(es).store.rows[id].status;
            GetStep(After(es).store, id, isUploader).Served? <==>
            && (st == Approved || (isUploader && st != Rejected))
            && PathIsCurrent(After(es), id, FileOperationFailed(es, id))
  {
    RowAndFileAgree(es, id);
    RunTracked(es, id);
  }

  // ---------- The runs ----------

  const DOUBTFUL := [Upload("m", "f", Image), Scanned("m", Doubtful)]
  const UNDER_REVIEW := Media("f", Image, Review, InQuarantine("f"), "")

  lemma DoubtfulImage()
    ensures Possible(DOUBTFUL)
    ensures After(DOUBTFUL) ==
            State(Store(map["m" := UNDER_REVIEW], {InQuarantine("f")}), map["m" := Finished], map[], {})
  {
    assert [DOUBTFUL[0]] == [] + [DOUBTFUL[0]];
    Extend([], DOUBTFUL[0]);
    assert DOUBTFUL == [DOUBTFUL[0]] + [DOUBTFUL[1]];
    Extend([DOUBTFUL[0]], DOUBTFUL[1]);
  }

  /** One review is enough for its uploader to miss an item that is still under review. */
  lemma MissingDuringReview()
    ensures var es := DOUBTFUL + [ReviewRead(0, "m", true)] + [ReviewFile(0, true)];
            && Possible(es) && "m" in After(es).store.rows && After(es).store.rows["m"].status == Review
            && GetStep(After(es).store, "m", true) == FileMissing
  {
    DoubtfulImage();
    Extend(DOUBTFUL, ReviewRead(0, "m", true));
    Extend(DOUBTFUL + [ReviewRead(0, "m", true)], ReviewFile(0, true));
  }

  const BOTH_READ := DOUBTFUL + [ReviewRead(0, "m", true)] + [ReviewRead(1, "m", false)]
  const BOTH_MOVED := BOTH_READ + [ReviewFile(0, true)] + [ReviewFile(1, true)]

  lemma TwoReviews()
    ensures Possible(BOTH_MOVED)
    ensures After(BOTH_MOVED) ==
            State(Store(map["m" := UNDER_REVIEW], {InApproved("f")}), map["m" := Finished],
                  map[0 := Job("m", true, true), 1 := Job("m", false, true)], {0, 1})
  {
    DoubtfulImage();
    Extend(DOUBTFUL, ReviewRead(0, "m", true));
    Extend(DOUBTFUL + [ReviewRead(0, "m", true)], ReviewRead(1, "m", false));
    assert After(BOTH_READ) ==
           State(Store(map["m" := UNDER_REVIEW], {InQuarantine("f")}), map["m" := Finished],
                 map[0 := Job("m", true, false), 1 := Job("m", false, false)], {0, 1});
    Extend(BOTH_READ, ReviewFile(0, true));
    Extend(BOTH_READ + [ReviewFile(0, true)], ReviewFile(1, true));
  }

  /** Two overlapping reviews: approved first, then rejected, with the file left in approved storage. */
  lemma ApprovedThenRejected()
    ensures var es := BOTH_MOVED + [ReviewWrite(0)];
            var es' := es + [ReviewWrite(1)];
            && Possible(es) && "m" in After(es).store.rows && After(es).store.rows["m"].status == Approved
            && Possible(es') && "m" in After(es').store.rows && After(es').store.rows["m"].status == Rejected
            && InApproved("f") in After(es').store.files
  {
    TwoReviews();
    Extend(BOTH_MOVED, ReviewWrite(0));
    Extend(BOTH_MOVED + [ReviewWrite(0)], ReviewWrite(1));
  }
}
