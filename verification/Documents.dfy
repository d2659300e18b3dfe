/** Uploaded documents: versions linked into chains by replacement. */
module Documents {
  import opened Wrappers
  import Lifecycle

  const BYTES_PER_MB := 1024 * 1024

  /** Documents are numbered in the order of their upload. */
  datatype Doc = Doc(app: string, requirement: string, version: int, active: bool, replacedBy: Option<nat>, size: nat)

  datatype Requirement = Requirement(key: string, maxSizeMb: nat, allowedTypes: set<string>)

  datatype AppRow = AppRow(id: string, client: string, agent: Option<string>, status: Lifecycle.Status)

  datatype DocError =
    | AppNotFound | AccessForbidden | UnknownRequirement
    | FileTooLarge(maxBytes: nat) | TypeNotAllowed(detected: string)
    | WrongStatus | DocumentNotFound

  predicate ActiveAt(docs: seq<Doc>, app: string, requirement: string, i: nat) {
    i < |docs| && docs[i].app == app && docs[i].requirement == requirement && docs[i].active
  }

  /** The query for the active document of a requirement. */
  function FindActive(docs: seq<Doc>, app: string, requirement: string): (r: Option<nat>)
    ensures r.Some? ==> ActiveAt(docs, app, requirement, r.value)
    ensures r.None? ==> forall i: nat :: !ActiveAt(docs, app, requirement, i)
  {
    if docs == [] then None
    else
      var n := |docs| - 1;
      if ActiveAt(docs, app, requirement, n) then Some(n)
      else
        var r := FindActive(docs[..n], app, requirement);
        assert r.None? ==>
          forall i: nat :: ActiveAt(docs, app, requirement, i) ==> ActiveAt(docs[..n], app, requirement, i);
        r
  }

  function Uploaded(docs: seq<Doc>, app: string, requirement: string, size: nat): seq<Doc> {
    var existing := FindActive(docs, app, requirement);
    if existing.None? then docs + [Doc(app, requirement, 1, true, None, size)]
    else
      var e := existing.value;
      docs[e := docs[e].(active := false, replacedBy := Some(|docs|))]
      + [Doc(app, requirement, docs[e].version + 1, true, None, size)]
  }

  function Removed(docs: seq<Doc>, id: nat): seq<Doc> {
    if id < |docs| then docs[id := docs[id].(active := false)] else docs
  }

  datatype Event = Upload(app: string, requirement: string, size: nat) | Remove(id: nat)

  function After(docs: seq<Doc>, e: Event): seq<Doc> {
    match e
    case Upload(app, requirement, size) => Uploaded(docs, app, requirement, size)
    case Remove(id) => Removed(docs, id)
  }

  function Run(docs: seq<Doc>, events: seq<Event>): seq<Doc>
    decreases |events|
  {
    if events == [] then docs else Run(After(docs, events[0]), events[1..])
  }

  // ---- Chains ----

  predicate Replaces(docs: seq<Doc>, i: nat, j: nat) {
    i < |docs| && docs[i].replacedBy == Some(j)
  }

  /** A link leads to a later document of the same requirement, one version up; what was replaced is
      not active. */
  ghost predicate LinksSound(docs: seq<Doc>) {
    forall i: nat, j: nat :: Replaces(docs, i, j) ==>
      i < j < |docs| && docs[j].app == docs[i].app && docs[j].requirement == docs[i].requirement &&
      docs[j].version == docs[i].version + 1 && !docs[i].active
  }

  ghost predicate LinksInjective(docs: seq<Doc>) {
    forall i: nat, k: nat, j: nat :: Replaces(docs, i, j) && Replaces(docs, k, j) ==> i == k
  }

  ghost predicate OneActive(docs: seq<Doc>) {
    forall i: nat, j: nat ::
      i < j < |docs| && docs[i].app == docs[j].app && docs[i].requirement == docs[j].requirement ==>
      !docs[i].active || !docs[j].active
  }

  /** Version 1 is exactly what replaces nothing. */
  ghost predicate HeadsAreFirst(docs: seq<Doc>) {
    forall j: nat :: j < |docs| ==>
      docs[j].version >= 1 && (docs[j].version == 1 <==> forall i: nat :: !Replaces(docs, i, j))
  }

  ghost predicate Chained(docs: seq<Doc>) {
    LinksSound(docs) && LinksInjective(docs) && OneActive(docs) && HeadsAreFirst(docs)
  }

  /** An upload adds one link, from the document that was active, if any, to the new one. */
  lemma UploadAddsLink(docs: seq<Doc>, app: string, requirement: string, size: nat, i: nat, j: nat)
    requires LinksSound(docs)
    ensures Replaces(Uploaded(docs, app, requirement, size), i, j) <==>
            Replaces(docs, i, j) || (FindActive(docs, app, requirement) == Some(i) && j == |docs|)
  {
    var existing := FindActive(docs, app, requirement);
    if existing == Some(i) && docs[i].replacedBy.Some? {
      assert Replaces(docs, i, docs[i].replacedBy.value);
    }
  }

  /** Earlier documents keep everything but the active flag and the link. */
  lemma UploadKeepsRows(docs: seq<Doc>, app: string, requirement: string, size: nat, i: nat)
    requires i < |docs|
    ensures var next := Uploaded(docs, app, requirement, size);
            |next| == |docs| + 1 &&
            next[i] == docs[i].(active := next[i].active, replacedBy := next[i].replacedBy) &&
            (next[i].active <==> docs[i].active && FindActive(docs, app, requirement) != Some(i))
  {
  }

  lemma UploadKeepsLinks(docs: seq<Doc>, app: string, requirement: string, size: nat)
    requires LinksSound(docs) && LinksInjective(docs)
    ensures LinksSound(Uploaded(docs, app, requirement, size)) && LinksInjective(Uploaded(docs, app, requirement, size))
  {
    var next := Uploaded(docs, app, requirement, size);
    forall i: nat, j: nat
      ensures Replaces(next, i, j) <==>
              Replaces(docs, i, j) || (FindActive(docs, app, requirement) == Some(i) && j == |docs|)
    {
      UploadAddsLink(docs, app, requirement, size, i, j);
    }
    forall i: nat, j: nat | Replaces(next, i, j)
      ensures i < j < |next| && next[j].app == next[i].app && next[j].requirement == next[i].requirement &&
              next[j].version == next[i].version + 1 && !next[i].active
    {
      UploadKeepsRows(docs, app, requirement, size, i);
      if j < |docs| {
        UploadKeepsRows(docs, app, requirement, size, j);
      }
    }
  }

  lemma UploadKeepsOneActive(docs: seq<Doc>, app: string, requirement: string, size: nat)
    requires OneActive(docs)
    ensures OneActive(Uploaded(docs, app, requirement, size))
  {
    var next := Uploaded(docs, app, requirement, size);
    forall i: nat, j: nat
      | i < j < |next| && next[i].app == next[j].app && next[i].requirement == next[j].requirement
      ensures !next[i].active || !next[j].active
    {
      UploadKeepsRows(docs, app, requirement, size, i);
      if j < |docs| {
        UploadKeepsRows(docs, app, requirement, size, j);
      } else {
        var existing := FindActive(docs, app, requirement);
        assert existing.Some? ==> ActiveAt(docs, app, requirement, existing.value);
        assert next[i].active ==> ActiveAt(docs, app, requirement, i);
      }
    }
  }

  lemma UploadKeepsHeads(docs: seq<Doc>, app: string, requirement: string, size: nat)
    requires LinksSound(docs) && HeadsAreFirst(docs)
    ensures HeadsAreFirst(Uploaded(docs, app, requirement, size))
  {
    var next := Uploaded(docs, app, requirement, size);
    forall j: nat | j < |next|
      ensures next[j].version >= 1 && (next[j].version == 1 <==> forall i: nat :: !Replaces(next, i, j))
    {
      forall i: nat
        ensures Replaces(next, i, j) <==>
                Replaces(docs, i, j) || (FindActive(docs, app, requirement) == Some(i) && j == |docs|)
      {
        UploadAddsLink(docs, app, requirement, size, i, j);
      }
      if j < |docs| {
        UploadKeepsRows(docs, app, requirement, size, j);
      } else if FindActive(docs, app, requirement).Some? {
        assert Replaces(next, FindActive(docs, app, requirement).value, j);
      }
    }
  }

  lemma UploadKeepsChains(docs: seq<Doc>, app: string, requirement: string, size: nat)
    requires Chained(docs)
    ensures Chained(Uploaded(docs, app, requirement, size))
  {
    UploadKeepsLinks(docs, app, requirement, size);
    UploadKeepsOneActive(docs, app, requirement, size);
    UploadKeepsHeads(docs, app, requirement, size);
  }

  lemma RemoveKeepsChains(docs: seq<Doc>, id: nat)
    requires Chained(docs)
    ensures Chained(Removed(docs, id))
  {
    var next := Removed(docs, id);
    forall i: nat, j: nat ensures Replaces(next, i, j) <==> Replaces(docs, i, j) {
    }
  }

  lemma EventKeepsChains(docs: seq<Doc>, e: Event)
    requires Chained(docs)
    ensures Chained(After(docs, e))
  {
    match e
    case Upload(app, requirement, size) => UploadKeepsChains(docs, app, requirement, size);
    case Remove(id) => RemoveKeepsChains(docs, id);
  }

  lemma {:induction false} RunKeepsChains(docs: seq<Doc>, events: seq<Event>)
    requires Chained(docs)
    ensures Chained(Run(docs, events))
    decreases |events|
  {
    if events != [] {
      EventKeepsChains(docs, events[0]);
      RunKeepsChains(After(docs, events[0]), events[1..]);
    }
  }

  /** Over any uploads and removals: at most one active document per requirement, links that are
      injective, stay in the requirement and raise the version by one, and replaced documents
      inactive. */
  lemma DocumentsFormChains(events: seq<Event>)
    ensures Chained(Run([], events))
  {
    RunKeepsChains([], events);
  }

  /** The document that `j` replaced, if any. */
  ghost function Predecessor(docs: seq<Doc>, j: nat): (r: Option<nat>)
    ensures r.Some? ==> Replaces(docs, r.value, j)
    ensures r.None? ==> forall i: nat :: !Replaces(docs, i, j)
  {
    if i: nat :| Replaces(docs, i, j) then Some(i) else None
  }

  /** How many documents of its chain come up to and including `j`. */
  ghost function Position(docs: seq<Doc>, j: nat): nat
    requires LinksSound(docs)
  {
    var p := Predecessor(docs, j);
    if p.None? then 1 else 1 + Position(docs, p.value)
  }

  /** A document's version is its place in its chain. */
  lemma {:induction false} VersionIsPosition(docs: seq<Doc>, j: nat)
    requires Chained(docs) && j < |docs|
    ensures docs[j].version == Position(docs, j)
  {
    var p := Predecessor(docs, j);
    if p.Some? {
      VersionIsPosition(docs, p.value);
    }
  }

  /** Following the links from a document ends, at the newest document of its chain. */
  function Newest(docs: seq<Doc>, i: nat): nat
    requires LinksSound(docs) && i < |docs|
    decreases |docs| - i
  {
    if docs[i].replacedBy.None? then i
    else
      assert Replaces(docs, i, docs[i].replacedBy.value);
      Newest(docs, docs[i].replacedBy.value)
  }

  /** Of all documents only the newest of its chain can be active. */
  lemma {:induction false} OnlyTheNewestIsActive(docs: seq<Doc>, i: nat)
    requires Chained(docs) && i < |docs|
    ensures var n := Newest(docs, i);
            i <= n < |docs| && docs[n].replacedBy.None? && docs[n].requirement == docs[i].requirement &&
            docs[n].app == docs[i].app &&
            docs[n].version == docs[i].version + (Position(docs, n) - Position(docs, i)) &&
            (docs[i].active ==> n == i)
    decreases |docs| - i
  {
    if docs[i].replacedBy.Some? {
      assert Replaces(docs, i, docs[i].replacedBy.value);
      OnlyTheNewestIsActive(docs, docs[i].replacedBy.value);
    }
    VersionIsPosition(docs, i);
    VersionIsPosition(docs, Newest(docs, i));
  }

  /** `later` is the same document as `earlier`: a link once set, and inactivity, are for good. */
  predicate SameDocument(earlier: Doc, later: Doc) {
    later == earlier.(active := later.active, replacedBy := later.replacedBy) &&
    (earlier.replacedBy.Some? ==> later.replacedBy == earlier.replacedBy) &&
    (!earlier.active ==> !later.active && later.replacedBy == earlier.replacedBy)
  }

  lemma EventKeepsDocument(docs: seq<Doc>, e: Event, i: nat)
    requires LinksSound(docs) && i < |docs|
    ensures i < |After(docs, e)| && SameDocument(docs[i], After(docs, e)[i])
  {
    if docs[i].replacedBy.Some? {
      assert Replaces(docs, i, docs[i].replacedBy.value);
    }
    if e.Upload? {
      UploadKeepsRows(docs, e.app, e.requirement, e.size, i);
    }
  }

  /** Rows are never deleted, and a removed or replaced document never comes back. */
  lemma {:induction false} DocumentsStay(docs: seq<Doc>, events: seq<Event>, i: nat)
    requires Chained(docs) && i < |docs|
    ensures i < |Run(docs, events)| && SameDocument(docs[i], Run(docs, events)[i])
    decreases |events|
  {
    if events != [] {
      EventKeepsChains(docs, events[0]);
      EventKeepsDocument(docs, events[0], i);
      DocumentsStay(After(docs, events[0]), events[1..], i);
    }
  }

  // ---- Every document, from the events alone ----

  /** How many documents the first `k` events uploaded, which is the number of the next one. */
  function Uploads(events: seq<Event>, k: nat): nat
    requires k <= |events|
  {
    if k == 0 then 0 else Uploads(events, k - 1) + (if events[k - 1].Upload? then 1 else 0)
  }

  /** Event `e` takes document `i`, uploaded by `u`, out of use. */
  predicate Retires(e: Event, u: Event, i: nat)
    requires u.Upload?
  {
    match e
    case Upload(app, requirement, _) => app == u.app && requirement == u.requirement
    case Remove(id) => id == i
  }

  /** The first event after `k` and before `n` to take the document that `k` uploaded out of use. */
  function RetiredBy(events: seq<Event>, k: nat, n: nat): (r: Option<nat>)
    requires k < n <= |events| && events[k].Upload?
    ensures r.None? <==> forall j :: k < j < n ==> !Retires(events[j], events[k], Uploads(events, k))
    ensures r.Some? ==> k < r.value < n && Retires(events[r.value], events[k], Uploads(events, k)) &&
                        forall j :: k < j < r.value ==> !Retires(events[j], events[k], Uploads(events, k))
    decreases n
  {
    if n == k + 1 then None
    else
      var before := RetiredBy(events, k, n - 1);
      if before.Some? then before
      else if Retires(events[n - 1], events[k], Uploads(events, k)) then Some(n - 1) else None
  }

  /** The documents after the first `n` events. */
  function DocsAfter(events: seq<Event>, n: nat): seq<Doc>
    requires n <= |events|
  {
    Run([], events[..n])
  }

  lemma {:induction false} RunSteps(docs: seq<Doc>, events: seq<Event>, n: nat)
    requires n < |events|
    ensures Run(docs, events[..n + 1]) == After(Run(docs, events[..n]), events[n])
    decreases n
  {
    assert events[..n + 1][1..] == events[1..][..n];
    if n == 0 {
      assert events[..n] == [] && events[1..][..0] == [];
    } else {
      assert events[..n][1..] == events[1..][..n - 1];
      RunSteps(After(docs, events[0]), events[1..], n - 1);
    }
  }

  lemma EventAddsUpload(docs: seq<Doc>, e: Event)
    ensures |After(docs, e)| == |docs| + (if e.Upload? then 1 else 0)
    ensures e.Upload? ==>
              var d := After(docs, e)[|docs|];
              d.app == e.app && d.requirement == e.requirement && d.size == e.size && d.active && d.replacedBy.None?
  {
  }

  lemma DocsStep(events: seq<Event>, n: nat)
    requires n < |events|
    ensures DocsAfter(events, n + 1) == After(DocsAfter(events, n), events[n])
  {
    RunSteps([], events, n);
  }

  lemma {:induction false} UploadsAreDocs(events: seq<Event>, n: nat)
    requires n <= |events|
    ensures |DocsAfter(events, n)| == Uploads(events, n)
  {
    if n > 0 {
      UploadsAreDocs(events, n - 1);
      DocsStep(events, n - 1);
      EventAddsUpload(DocsAfter(events, n - 1), events[n - 1]);
    }
  }

  /** Of the document that event `k` uploaded: it is what was uploaded, it is active exactly while
      nothing took it out of use, and it is linked to a new one exactly if an upload did. */
  predicate IsAsEventsTell(docs: seq<Doc>, events: seq<Event>, k: nat, n: nat)
    requires k < n <= |events| && events[k].Upload?
  {
    var i, u, r := Uploads(events, k), events[k], RetiredBy(events, k, n);
    i < |docs| && docs[i].app == u.app && docs[i].requirement == u.requirement && docs[i].size == u.size &&
    docs[i].active == r.None? &&
    docs[i].replacedBy == if r.Some? && events[r.value].Upload? then Some(Uploads(events, r.value)) else None
  }

  lemma ActiveIsFound(docs: seq<Doc>, i: nat)
    requires OneActive(docs) && i < |docs|
    ensures docs[i].active <==> FindActive(docs, docs[i].app, docs[i].requirement) == Some(i)
  {
    var r := FindActive(docs, docs[i].app, docs[i].requirement);
    if docs[i].active {
      assert ActiveAt(docs, docs[i].app, docs[i].requirement, i);
      assert r.Some? && ActiveAt(docs, docs[i].app, docs[i].requirement, r.value);
    }
  }

  predicate Takes(d: Doc, e: Event, i: nat) {
    d.active && Retires(e, Upload(d.app, d.requirement, d.size), i)
  }

  /** What one event does to a document: only an active one changes, and only if the event retires it. */
  lemma EventOnDocument(docs: seq<Doc>, e: Event, i: nat)
    requires OneActive(docs) && i < |docs|
    ensures i < |After(docs, e)|
    ensures After(docs, e)[i] == docs[i].(active := docs[i].active && !Takes(docs[i], e, i),
                                          replacedBy := if Takes(docs[i], e, i) && e.Upload? then Some(|docs|)
                                                        else docs[i].replacedBy)
  {
    ActiveIsFound(docs, i);
    if e.Upload? {
      var existing := FindActive(docs, e.app, e.requirement);
      assert existing.Some? ==> ActiveAt(docs, e.app, e.requirement, existing.value);
    }
  }

  lemma DocumentStep(docs: seq<Doc>, events: seq<Event>, k: nat, n: nat)
    requires k + 1 < n <= |events| && events[k].Upload? && OneActive(docs) && |docs| == Uploads(events, n - 1)
    requires IsAsEventsTell(docs, events, k, n - 1)
    ensures IsAsEventsTell(After(docs, events[n - 1]), events, k, n)
  {
    EventOnDocument(docs, events[n - 1], Uploads(events, k));
  }

  lemma DocumentBegins(events: seq<Event>, k: nat)
    requires k < |events| && events[k].Upload?
    ensures IsAsEventsTell(DocsAfter(events, k + 1), events, k, k + 1)
  {
    UploadsAreDocs(events, k);
    DocsStep(events, k);
    EventAddsUpload(DocsAfter(events, k), events[k]);
  }

  lemma DocumentContinues(events: seq<Event>, k: nat, n: nat)
    requires k < n < |events| && events[k].Upload? && IsAsEventsTell(DocsAfter(events, n), events, k, n)
    ensures IsAsEventsTell(DocsAfter(events, n + 1), events, k, n + 1)
  {
    UploadsAreDocs(events, n);
    OneActiveAfter(events, n);
    DocumentStep(DocsAfter(events, n), events, k, n + 1);
    DocsStep(events, n);
  }

  lemma OneActiveAfter(events: seq<Event>, n: nat)
    requires n <= |events|
    ensures OneActive(DocsAfter(events, n))
  {
    DocumentsFormChains(events[..n]);
  }

  /** Every uploaded document, after any run, is as the events tell. */
  lemma {:induction false} DocumentIsAsEventsTell(events: seq<Event>, k: nat, n: nat)
    requires k < n <= |events| && events[k].Upload?
    ensures IsAsEventsTell(DocsAfter(events, n), events, k, n)
    decreases n
  {
    if k == n - 1 {
      DocumentBegins(events, k);
    } else {
      DocumentIsAsEventsTell(events, k, n - 1);
      DocumentContinues(events, k, n - 1);
    }
  }

  // ---- The request side ----

  /** What a stream of chunks holds: reading stops at the first empty chunk. */
  function StreamSize(chunks: seq<nat>): nat {
    if chunks == [] || chunks[0] == 0 then 0 else chunks[0] + StreamSize(chunks[1..])
  }

  /** The stream is what comes before its first empty chunk, added up. */
  lemma {:induction false} StreamIsFrontPart(front: seq<nat>, c: nat, rest: seq<nat>)
    requires 0 !in front
    ensures StreamSize(front + [c] + rest) == StreamSize(front) + (if c == 0 then 0 else c + StreamSize(rest))
  {
    var all := front + [c] + rest;
    if front == [] {
      assert all[1..] == rest;
    } else {
      assert all[1..] == front[1..] + [c] + rest;
      StreamIsFrontPart(front[1..], c, rest);
    }
  }

  /** The size of an upload, or nothing when it is over the limit: the running total passes the
      limit at some chunk exactly when the whole stream does. */
  method CountChunks(chunks: seq<nat>, maxBytes: nat) returns (total: Option<nat>)
    ensures total == if StreamSize(chunks) <= maxBytes then Some(StreamSize(chunks)) else None
  {
    var written, i := 0, 0;
    assert chunks[0..] == chunks;
    while i < |chunks| && chunks[i] != 0
      invariant i <= |chunks| && written <= maxBytes
      invariant StreamSize(chunks) == written + StreamSize(chunks[i..])
    {
      written := written + chunks[i];
      if written > maxBytes {
        return None;
      }
      assert chunks[i..][1..] == chunks[i + 1..];
      i := i + 1;
    }
    return Some(written);
  }

  datatype UploadRequest = UploadRequest(
    user: string, checkOwnership: bool, checkAssignment: bool, requirementKey: string,
    chunks: seq<nat>, detectedType: string)

  function FindRequirement(requirements: seq<Requirement>, key: string): Option<Requirement> {
    if requirements == [] then None
    else if requirements[0].key == key then Some(requirements[0])
    else FindRequirement(requirements[1..], key)
  }

  /** `requirements` are those of the application's service, absent if the service is gone. */
  function UploadOutcome(
      docs: seq<Doc>, app: Option<AppRow>, requirements: Option<seq<Requirement>>, q: UploadRequest)
    : Result<seq<Doc>, DocError>
  {
    if app.None? then Err(AppNotFound)
    else if q.checkOwnership && app.value.client != q.user then Err(AccessForbidden)
    else if q.checkAssignment && app.value.agent != Some(q.user) then Err(AccessForbidden)
    else if requirements.None? then Err(AppNotFound)
    else
      var requirement := FindRequirement(requirements.value, q.requirementKey);
      if requirement.None? then Err(UnknownRequirement)
      else
        var maxBytes := requirement.value.maxSizeMb * BYTES_PER_MB;
        if StreamSize(q.chunks) > maxBytes then Err(FileTooLarge(maxBytes))
        else if q.detectedType !in requirement.value.allowedTypes then Err(TypeNotAllowed(q.detectedType))
        else Ok(Uploaded(docs, app.value.id, q.requirementKey, StreamSize(q.chunks)))
  }

  function RemoveOutcome(docs: seq<Doc>, app: Option<AppRow>, id: nat, client: string): Result<seq<Doc>, DocError> {
    if app.None? then Err(AppNotFound)
    else if app.value.client != client then Err(AccessForbidden)
    else if app.value.status !in Lifecycle.CLIENT_CANCELLABLE + {Lifecycle.AwaitingClient} then Err(WrongStatus)
    else if id >= |docs| || docs[id].app != app.value.id then Err(DocumentNotFound)
    else Ok(Removed(docs, id))
  }

  // ---- Requests and the chains ----

  predicate IsFirstWithKey(requirements: seq<Requirement>, key: string, i: nat) {
    i < |requirements| && requirements[i].key == key && forall j :: 0 <= j < i ==> requirements[j].key != key
  }

  lemma {:induction false} FindRequirementIsFirst(requirements: seq<Requirement>, key: string, i: nat)
    ensures IsFirstWithKey(requirements, key, i) ==> FindRequirement(requirements, key) == Some(requirements[i])
  {
    if i > 0 && IsFirstWithKey(requirements, key, i) {
      forall j | 0 <= j < i - 1 ensures requirements[1..][j].key != key {
        assert requirements[1..][j] == requirements[j + 1];
      }
      FindRequirementIsFirst(requirements[1..], key, i - 1);
    }
  }

  lemma {:induction false} FirstWithKey(requirements: seq<Requirement>, key: string) returns (i: nat)
    requires FindRequirement(requirements, key).Some?
    ensures IsFirstWithKey(requirements, key, i)
  {
    if requirements[0].key == key {
      i := 0;
    } else {
      var k := FirstWithKey(requirements[1..], key);
      i := k + 1;
      forall j | 0 <= j < i ensures requirements[j].key != key {
        assert j > 0 ==> requirements[1..][j - 1] == requirements[j];
      }
    }
  }

  /** The user may act on the application in the capacities that the route checks. */
  predicate MayUpload(app: AppRow, q: UploadRequest) {
    (q.checkOwnership ==> app.client == q.user) && (q.checkAssignment ==> app.agent == Some(q.user))
  }

  /** Requirement `i` is the one that the key names, and the upload meets it. */
  predicate Fits(requirements: seq<Requirement>, q: UploadRequest, i: nat) {
    IsFirstWithKey(requirements, q.requirementKey, i) &&
    StreamSize(q.chunks) <= requirements[i].maxSizeMb * 1048576 &&
    q.detectedType in requirements[i].allowedTypes
  }

  /** Exactly these uploads are accepted. */
  lemma UploadAcceptedIff(docs: seq<Doc>, app: Option<AppRow>, requirements: Option<seq<Requirement>>, q: UploadRequest)
    ensures UploadOutcome(docs, app, requirements, q).Ok? <==>
            app.Some? && MayUpload(app.value, q) && requirements.Some? &&
            exists i: nat :: Fits(requirements.value, q, i)
  {
    if requirements.Some? {
      if FindRequirement(requirements.value, q.requirementKey).Some? {
        var i := FirstWithKey(requirements.value, q.requirementKey);
        FindRequirementIsFirst(requirements.value, q.requirementKey, i);
        assert UploadOutcome(docs, app, requirements, q).Ok? ==> Fits(requirements.value, q, i);
      }
      if k: nat :| Fits(requirements.value, q, k) {
        FindRequirementIsFirst(requirements.value, q.requirementKey, k);
      }
    }
  }

  /** Exactly these removals are accepted: by the owner, of a document of the application, while its
      status is one that the owner could cancel from. */
  lemma RemovalAcceptedIff(docs: seq<Doc>, app: Option<AppRow>, id: nat, client: string)
    ensures RemoveOutcome(docs, app, id, client).Ok? <==>
            app.Some? && app.value.client == client && Lifecycle.Cancelled in Lifecycle.Allowed(app.value.status) &&
            id < |docs| && docs[id].app == app.value.id
  {
  }

  /** A request with the rows that it finds. */
  datatype Request =
    | AskUpload(app: Option<AppRow>, requirements: Option<seq<Requirement>>, q: UploadRequest)
    | AskRemove(app: Option<AppRow>, id: nat, client: string)

  function Outcome(docs: seq<Doc>, r: Request): Result<seq<Doc>, DocError> {
    match r
    case AskUpload(app, requirements, q) => UploadOutcome(docs, app, requirements, q)
    case AskRemove(app, id, client) => RemoveOutcome(docs, app, id, client)
  }

  function Served(docs: seq<Doc>, requests: seq<Request>): seq<Doc>
    decreases |requests|
  {
    if requests == [] then docs
    else
      var r := Outcome(docs, requests[0]);
      Served(if r.Ok? then r.value else docs, requests[1..])
  }

  /** What requests do to the documents is what their accepted ones do, in order. */
  lemma {:induction false} ServedIsARun(docs: seq<Doc>, requests: seq<Request>) returns (events: seq<Event>)
    ensures Served(docs, requests) == Run(docs, events)
    decreases |requests|
  {
    if requests == [] {
      events := [];
    } else {
      var r := Outcome(docs, requests[0]);
      if r.Ok? {
        var rest := ServedIsARun(r.value, requests[1..]);
        var e := match requests[0]
          case AskUpload(app, requirements, q) => Upload(app.value.id, q.requirementKey, StreamSize(q.chunks))
          case AskRemove(app, id, client) => Remove(id);
        assert After(docs, e) == r.value;
        events := [e] + rest;
        assert events[1..] == rest;
      } else {
        events := ServedIsARun(docs, requests[1..]);
      }
    }
  }

  /** The chain properties hold after any requests, accepted and refused. */
  lemma RequestsKeepChains(requests: seq<Request>)
    ensures Chained(Served([], requests))
  {
    var events := ServedIsARun([], requests);
    DocumentsFormChains(events);
  }

  class DocumentsService {
    var docs: seq<Doc>

    constructor ()
      ensures docs == []
    {
      docs := [];
    }

    /** The id of the new document. */
    method UploadDocument(app: Option<AppRow>, requirements: Option<seq<Requirement>>, q: UploadRequest)
      returns (r: Result<nat, DocError>)
      modifies this
      ensures var spec := UploadOutcome(old(docs), app, requirements, q);
              if spec.Ok? then r == Ok(|old(docs)|) && docs == spec.value else r == Err(spec.error) && docs == old(docs)
    {
      if app.None? {
        return Err(AppNotFound);
      }
      if q.checkOwnership && app.value.client != q.user {
        return Err(AccessForbidden);
      }
      if q.checkAssignment && app.value.agent != Some(q.user) {
        return Err(AccessForbidden);
      }
      if requirements.None? {
        return Err(AppNotFound);
      }
      var requirement := FindRequirement(requirements.value, q.requirementKey);
      if requirement.None? {
        return Err(UnknownRequirement);
      }
      var maxBytes := requirement.value.maxSizeMb * BYTES_PER_MB;
      var total := CountChunks(q.chunks, maxBytes);
      if total.None? {
        return Err(FileTooLarge(maxBytes));
      }
      if q.detectedType !in requirement.value.allowedTypes {
        return Err(TypeNotAllowed(q.detectedType));
      }
      var id := |docs|;
      var existing := FindActive(docs, app.value.id, q.requirementKey);
      var version := 1;
      if existing.Some? {
        version := docs[existing.value].version + 1;
        docs := docs[existing.value := docs[existing.value].(active := false)];
      }
      docs := docs + [Doc(app.value.id, q.requirementKey, version, true, None, total.value)];
      if existing.Some? {
        docs := docs[existing.value := docs[existing.value].(replacedBy := Some(id))];
      }
      return Ok(id);
    }

    method DeactivateDocument(app: Option<AppRow>, id: nat, client: string) returns (r: Result<(), DocError>)
      modifies this
      ensures var spec := RemoveOutcome(old(docs), app, id, client);
              if spec.Ok? then r == Ok(()) && docs == spec.value else r == Err(spec.error) && docs == old(docs)
    {
      if app.None? {
        return Err(AppNotFound);
      }
      if app.value.client != client {
        return Err(AccessForbidden);
      }
      if app.value.status !in Lifecycle.CLIENT_CANCELLABLE + {Lifecycle.AwaitingClient} {
        return Err(WrongStatus);
      }
      if id >= |docs| || docs[id].app != app.value.id {
        return Err(DocumentNotFound);
      }
      docs := docs[id := docs[id].(active := false)];
      return Ok(());
    }
  }
}
