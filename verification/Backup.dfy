/** The backup job: attachments, files and databases captured together, retried while the
    source keeps changing, and published by one rename. */
module Backup {
  import opened Prelude
  import opened OnlineSnapshot
  import Attachments

  /** Everything that is backed up, at an instant. */
  datatype World = World(source: Source, service: Attachments.Service)

  type WorldTimeline = nat -> World

  function FilesOf(w: WorldTimeline): Timeline {
    (t: nat) => w(t).source
  }

  function ServiceOf(w: WorldTimeline): Attachments.ServiceTimeline {
    (t: nat) => w(t).service
  }

  datatype Archive = Archive(copies: map<Path, Copy>,
                             attachments: Option<(Attachments.Manifest, map<Attachments.Key, Content>)>)

  /** The archive is the source, databases and attachment objects included, at one instant. */
  ghost predicate Consistent(w: WorldTimeline, universe: set<Path>, t: nat, a: Archive) {
    && Faithful(FilesOf(w), universe, t, a.copies)
    && (a.attachments.Some? ==>
          a.attachments.value.0 == w(t).service.manifest && a.attachments.value.1 == w(t).service.objects)
  }

  /** The objects of an archive are those of its inventory, which is well formed. */
  ghost predicate Sound(digest: Content -> string, a: Archive) {
    a.attachments.Some? ==>
      Attachments.ValidManifest(a.attachments.value.0)
      && Attachments.Matches(digest, a.attachments.value.0, a.attachments.value.1)
  }

  /** What is assumed of the writers during the interval: nothing returns to an earlier value,
      commits are counted, and the service holds what its inventory says. */
  ghost predicate Orderly(w: WorldTimeline, digest: Content -> string, universe: set<Path>, start: nat, end: nat) {
    && NoReturn(FilesOf(w), universe, start, end) && VersionsCount(FilesOf(w))
    && Attachments.ManifestNoReturn(ServiceOf(w), start, end) && Attachments.Describes(ServiceOf(w), digest)
  }

  /** An inventory found unchanged around an instant was in force at it, and so were its objects. */
  lemma AttachmentsAtInstant(w: WorldTimeline, digest: Content -> string, m: Attachments.Manifest,
                             files: map<Attachments.Key, Content>,
                             start: nat, before: nat, t: nat, after: nat, end: nat)
    requires Injective(digest)
    requires Attachments.ManifestNoReturn(ServiceOf(w), start, end) && Attachments.Describes(ServiceOf(w), digest)
    requires start <= before <= t <= after <= end
    requires ServiceOf(w)(before).manifest == m == ServiceOf(w)(after).manifest
    requires Attachments.Matches(digest, m, files)
    ensures m == w(t).service.manifest && files == w(t).service.objects
  {
    assert ServiceOf(w)(t).manifest == m;
    Attachments.SameObjects(digest, m, files, ServiceOf(w)(t).objects);
  }

  /** Nothing changes from `start` on, there is nothing special to copy, and the attachment
      service holds what its well-formed inventory says, within the budget. */
  ghost predicate WorldAtRest(w: WorldTimeline, digest: Content -> string, universe: set<Path>, budget: Option<nat>,
                              start: nat)
  {
    && (forall t: nat | start <= t :: w(t) == w(start))
    && AtRest(FilesOf(w), universe, start)
    && (budget.Some? ==> Attachments.Serviceable(digest, w(start).service, budget.value))
  }

  lemma RestsLater(w: WorldTimeline, digest: Content -> string, universe: set<Path>, budget: Option<nat>,
                   start: nat, now: nat)
    requires WorldAtRest(w, digest, universe, budget, start) && start <= now
    ensures WorldAtRest(w, digest, universe, budget, now) && w(now) == w(start)
    ensures AtRest(FilesOf(w), universe, now) && Attachments.Rests(ServiceOf(w), now)
    ensures ServiceOf(w)(now) == w(start).service
  {
    AtRestLater(FilesOf(w), universe, start, now);
    forall t: nat | now <= t ensures w(t) == w(now) && ServiceOf(w)(t) == ServiceOf(w)(now) {
      assert w(t) == w(start);
    }
  }

  /** The archive is all of the source, and all attachments. */
  ghost predicate Whole(w: WorldTimeline, universe: set<Path>, t: nat, a: Archive)
    requires NoSpecial(FilesOf(w), universe, t)
  {
    && WholeCopy(FilesOf(w), universe, t, a.copies)
    && (a.attachments.Some? ==>
          a.attachments.value.0 == w(t).service.manifest && a.attachments.value.1 == w(t).service.objects)
  }

  /** Something was seen that no further attempt helps against. */
  ghost predicate Hopeless(w: WorldTimeline, digest: Content -> string, universe: set<Path>, budget: Option<nat>,
                           start: nat, end: nat)
  {
    || Excused(FilesOf(w), universe, start, end)
    || (budget.Some? && Attachments.Refusable(ServiceOf(w), digest, budget.value, start, end))
  }

  lemma HopelessWider(w: WorldTimeline, digest: Content -> string, universe: set<Path>, budget: Option<nat>,
                      start: nat, a: nat, b: nat, end: nat)
    requires Hopeless(w, digest, universe, budget, a, b) && start <= a <= b <= end
    ensures Hopeless(w, digest, universe, budget, start, end)
  {
    if Excused(FilesOf(w), universe, a, b) {
      ExcusedWider(FilesOf(w), universe, start, a, b, end);
    } else {
      Attachments.RefusableWider(ServiceOf(w), digest, budget.value, start, a, b, end);
    }
  }

  /** One attempt: the attachment inventory is read before the file capture and again after it. */
  method Attempt(w: WorldTimeline, digest: Content -> string, universe: set<Path>, budget: Option<nat>, start: nat,
                 reliable: bool)
    returns (r: Outcome<Archive>, end: nat, ghost instant: nat)
    requires Injective(digest)
    ensures start <= instant <= end
    ensures r.Got? ==> r.value.attachments.Some? == budget.Some? && Sound(digest, r.value)
    ensures r.Got? && Orderly(w, digest, universe, start, end) ==> Consistent(w, universe, instant, r.value)
    ensures reliable && r.Failed? ==> Hopeless(w, digest, universe, budget, start, end)
    ensures reliable && WorldAtRest(w, digest, universe, budget, start) ==>
              r.Got? && Whole(w, universe, start, r.value)
  {
    var attachments, now;
    ghost var fetched;
    attachments, now, fetched := CaptureAttachments(w, digest, universe, budget, start, reliable);
    instant, end := now, now;
    if !attachments.Got? {
      return if attachments.Failed? then Failed else SourceChanged, end, instant;
    }
    ghost var captured := now;
    StillAtRest(w, digest, universe, budget, start, captured);
    var copies;
    copies, now, instant := Capture(FilesOf(w), digest, universe, now, reliable);
    end := now;
    if !copies.Got? {
      if reliable && copies.Failed? {
        ExcusedWider(FilesOf(w), universe, start, captured, end, end);
      }
      return if copies.Failed? then Failed else SourceChanged, end, instant;
    }
    ghost var finished := now;
    StillAtRest(w, digest, universe, budget, start, finished);
    StillAtRest(w, digest, universe, budget, start, fetched);
    var again;
    again, end := ConfirmAttachments(w, digest, universe, attachments.value, budget, now);
    if !again.Got? {
      if again.Failed? {
        HopelessWider(w, digest, universe, budget, start, finished, end, end);
      }
      return if again.Failed? then Failed else SourceChanged, end, instant;
    }
    r := Got(Archive(copies.value, attachments.value));
    if Orderly(w, digest, universe, start, end) {
      AttemptConsistent(w, digest, universe, r.value, start, fetched, captured, instant, finished, end);
    }
    if WorldAtRest(w, digest, universe, budget, start) {
      AttemptWhole(w, digest, universe, budget, r.value, start, fetched, captured);
    }
  }

  /** The attachments, if there are any to capture. */
  method CaptureAttachments(w: WorldTimeline, digest: Content -> string, universe: set<Path>, budget: Option<nat>,
                            start: nat, reliable: bool)
    returns (r: Outcome<Option<(Attachments.Manifest, map<Attachments.Key, Content>)>>, end: nat, ghost fetched: nat)
    ensures start <= fetched <= end
    ensures r.Got? ==> r.value.Some? == budget.Some?
    ensures r.Got? && r.value.Some? ==>
              && r.value.value.0 == w(fetched).service.manifest && Attachments.ValidManifest(r.value.value.0)
              && Attachments.Matches(digest, r.value.value.0, r.value.value.1)
    ensures reliable && r.Failed? ==> Hopeless(w, digest, universe, budget, start, end)
    ensures reliable && WorldAtRest(w, digest, universe, budget, start) ==> r.Got?
  {
    fetched, end := start, start;
    if budget.None? {
      return Got(None), end, fetched;
    }
    StillAtRest(w, digest, universe, budget, start, start);
    var objects;
    objects, end, fetched := Attachments.CaptureObjects(ServiceOf(w), digest, budget.value, start, reliable);
    r := if objects.Got? then Got(Some(objects.value)) else if objects.Failed? then Failed else SourceChanged;
  }

  /** The inventory once more, if there is one. */
  method ConfirmAttachments(w: WorldTimeline, digest: Content -> string, universe: set<Path>,
                            attachments: Option<(Attachments.Manifest, map<Attachments.Key, Content>)>,
                            budget: Option<nat>, start: nat)
    returns (r: Outcome<bool>, end: nat)
    requires attachments.Some? == budget.Some?
    ensures start <= end
    ensures r.Got? && attachments.Some? ==> w(end).service.manifest == attachments.value.0
    ensures r.Failed? ==> Hopeless(w, digest, universe, budget, start, end)
    ensures WorldAtRest(w, digest, universe, budget, start)
            && (attachments.Some? ==> attachments.value.0 == w(start).service.manifest)
            ==> r.Got?
  {
    if attachments.None? {
      return Got(true), start;
    }
    r, end := VerifyUnchanged(w, attachments.value.0, budget.value, start);
    assert ServiceOf(w)(end) == w(end).service;
    if r.Failed? {
      assert Attachments.Refusable(ServiceOf(w), digest, budget.value, start, end);
    }
  }

  lemma StillAtRest(w: WorldTimeline, digest: Content -> string, universe: set<Path>, budget: Option<nat>,
                    start: nat, now: nat)
    requires start <= now
    ensures WorldAtRest(w, digest, universe, budget, start) ==>
              && WorldAtRest(w, digest, universe, budget, now) && w(now) == w(start)
              && AtRest(FilesOf(w), universe, now) && Attachments.Rests(ServiceOf(w), now)
              && ServiceOf(w)(now) == w(start).service
  {
    if WorldAtRest(w, digest, universe, budget, start) {
      RestsLater(w, digest, universe, budget, start, now);
    }
  }

  lemma AttemptConsistent(w: WorldTimeline, digest: Content -> string, universe: set<Path>, a: Archive,
                          start: nat, fetched: nat, captured: nat, instant: nat, finished: nat, end: nat)
    requires Injective(digest) && Orderly(w, digest, universe, start, end)
    requires start <= fetched <= captured <= instant <= finished <= end
    requires NoReturn(FilesOf(w), universe, captured, finished) && VersionsCount(FilesOf(w)) ==>
               Faithful(FilesOf(w), universe, instant, a.copies)
    requires a.attachments.Some? ==>
               && w(fetched).service.manifest == a.attachments.value.0 == w(end).service.manifest
               && Attachments.Matches(digest, a.attachments.value.0, a.attachments.value.1)
    ensures Consistent(w, universe, instant, a)
  {
    NarrowerInterval(FilesOf(w), universe, start, captured, finished, end);
    if a.attachments.Some? {
      AttachmentsAtInstant(w, digest, a.attachments.value.0, a.attachments.value.1, start, fetched, instant, end, end);
    }
  }

  lemma AttemptWhole(w: WorldTimeline, digest: Content -> string, universe: set<Path>, budget: Option<nat>, a: Archive,
                     start: nat, fetched: nat, captured: nat)
    requires Injective(digest) && WorldAtRest(w, digest, universe, budget, start)
    requires start <= fetched <= captured && a.attachments.Some? == budget.Some?
    requires a.attachments.Some? ==>
               && a.attachments.value.0 == w(fetched).service.manifest
               && Attachments.Matches(digest, a.attachments.value.0, a.attachments.value.1)
    requires AtRest(FilesOf(w), universe, captured) && WholeCopy(FilesOf(w), universe, captured, a.copies)
    ensures Whole(w, universe, start, a)
  {
    assert w(captured) == w(start) && w(fetched) == w(start);
    WholeLater(w, universe, start, captured, a.copies);
    if a.attachments.Some? {
      Attachments.SameObjects(digest, a.attachments.value.0, a.attachments.value.1, w(start).service.objects);
    }
  }

  lemma WholeLater(w: WorldTimeline, universe: set<Path>, start: nat, now: nat, copies: map<Path, Copy>)
    requires w(now) == w(start) && NoSpecial(FilesOf(w), universe, now)
    requires WholeCopy(FilesOf(w), universe, now, copies)
    ensures NoSpecial(FilesOf(w), universe, start) && WholeCopy(FilesOf(w), universe, start, copies)
  {
    var tl := FilesOf(w);
    assert tl(now) == tl(start);
    forall p ensures NodeAt(tl, p, now) == NodeAt(tl, p, start) && KindAt(tl, p, now) == KindAt(tl, p, start) {
    }
    forall p ensures ToCopy(tl, universe, now, p) <==> ToCopy(tl, universe, start, p) {
    }
  }

  lemma NarrowerTracked(tl: Timeline, universe: set<Path>, p: Path, start: nat, a: nat, b: nat, end: nat)
    requires Tracked(tl, universe, p, a, b) && start <= a <= b <= end
    ensures Tracked(tl, universe, p, start, end)
  {
    forall q | q in universe && Sidecar(q, p) ensures !DatabaseThroughout(tl, q, start, end) {
      assert !DatabaseThroughout(tl, q, a, b);
    }
  }

  lemma NarrowerPathNoReturn(tl: Timeline, p: Path, start: nat, a: nat, b: nat, end: nat)
    requires PathNoReturn(tl, p, start, end) && start <= a <= b <= end
    ensures PathNoReturn(tl, p, a, b)
  {
  }

  lemma NarrowerFileNoReturn(tl: Timeline, id: FileId, start: nat, a: nat, b: nat, end: nat)
    requires FileNoReturn(tl, id, start, end) && start <= a <= b <= end
    ensures FileNoReturn(tl, id, a, b)
  {
  }

  lemma NarrowerFile(tl: Timeline, universe: set<Path>, id: FileId, start: nat, a: nat, b: nat, end: nat)
    requires TrackedFile(tl, universe, id, a, b) && start <= a <= b <= end
    ensures TrackedFile(tl, universe, id, start, end)
  {
    var p, t: nat :| a <= t <= b && Tracked(tl, universe, p, a, b)
                     && IdAt(tl, p, t) == Some(id) && KindAt(tl, p, t) == Some(Regular);
    NarrowerTracked(tl, universe, p, start, a, b, end);
  }

  lemma NarrowerInterval(tl: Timeline, universe: set<Path>, start: nat, a: nat, b: nat, end: nat)
    requires NoReturn(tl, universe, start, end) && start <= a <= b <= end
    ensures NoReturn(tl, universe, a, b)
  {
    forall p | Tracked(tl, universe, p, a, b) ensures PathNoReturn(tl, p, a, b) {
      NarrowerTracked(tl, universe, p, start, a, b, end);
      NarrowerPathNoReturn(tl, p, start, a, b, end);
    }
    forall id: FileId | TrackedFile(tl, universe, id, a, b) ensures FileNoReturn(tl, id, a, b) {
      NarrowerFile(tl, universe, id, start, a, b, end);
      NarrowerFileNoReturn(tl, id, start, a, b, end);
    }
  }

  /** `verify_unchanged`: the inventory is read and checked again. */
  method VerifyUnchanged(w: WorldTimeline, before: Attachments.Manifest, budget: nat, start: nat)
    returns (r: Outcome<bool>, end: nat)
    ensures start <= end
    ensures r.Got? ==> ServiceOf(w)(end).manifest == before
    ensures r.Failed? ==>
              || !Attachments.ValidManifest(w(end).service.manifest)
              || Attachments.TotalSize(w(end).service.manifest) > budget
    ensures (Attachments.ValidManifest(before) && w(end).service.manifest == before
             && Attachments.TotalSize(before) <= budget) ==> r.Got?
  {
    end := Later(start);
    var m := ServiceOf(w)(end).manifest;
    var total := Attachments.CheckManifest(m, budget);
    r := if total.None? then Failed else if m != before then SourceChanged else Got(true);
  }

  /** The backup directory. */
  class Destination {
    var archives: map<string, Archive>
    var partials: map<string, Archive>

    constructor ()
      ensures archives == map[] && partials == map[]
    {
      archives, partials := map[], map[];
    }

    /** `snapshot`: up to three attempts, then encryption into a partial file, then one rename.
        A name appears only with an archive that is the source at one instant; otherwise
        nothing is published, and a partial file is left only by a process that is killed.
        Without other faults it gives up only on what no attempt can help, or after three, and
        a source at rest is always published whole. */
    method Snapshot(w: WorldTimeline, digest: Content -> string, universe: set<Path>, budget: Option<nat>,
                    name: string, start: nat, reliable: bool)
      returns (published: bool, killed: bool, attempts: nat, last: Outcome<Archive>, end: nat,
               ghost began: nat, ghost instant: nat)
      requires Injective(digest)
      modifies this
      ensures start <= began <= instant <= end
      ensures partials == old(partials) || (killed && !published && partials.Keys == old(partials).Keys + {name})
      ensures !published ==> archives == old(archives)
      ensures published ==>
                && name !in old(archives) && last.Got? && archives == old(archives)[name := last.value]
                && last.value.attachments.Some? == budget.Some? && Sound(digest, last.value)
                && (Orderly(w, digest, universe, began, end) ==> Consistent(w, universe, instant, last.value))
      ensures name in old(archives) || name in old(partials) ==> attempts == 0 && !published
      ensures attempts <= 3 && (last.SourceChanged? && name !in old(archives + partials) ==> attempts == 3)
      ensures reliable && last.Got? ==> published
      ensures reliable && last.Failed? ==> Hopeless(w, digest, universe, budget, start, end)
      ensures (reliable && WorldAtRest(w, digest, universe, budget, start) && name !in old(archives + partials)) ==>
                published && Whole(w, universe, start, last.value)
    {
      published, killed, attempts, last, end := false, false, 0, SourceChanged, start;
      began, instant := start, start;
      if name in archives || name in partials {
        return;
      }
      while attempts < 3
        invariant start <= end && began == instant == start && attempts <= 3 && last == SourceChanged
        invariant archives == old(archives) && partials == old(partials) && !published && !killed
        invariant reliable && WorldAtRest(w, digest, universe, budget, start) ==> attempts == 0 && end == start
        decreases 3 - attempts
      {
        ghost var from := end;
        ghost var at;
        attempts := attempts + 1;
        last, end, at := Attempt(w, digest, universe, budget, end, reliable);
        if last.Got? {
          began, instant := from, at;
          published, killed := Publish(name, last.value, reliable);
          return;
        }
        if last.Failed? {
          if reliable {
            HopelessWider(w, digest, universe, budget, start, from, end, end);
          }
          return;
        }
        end := Later(end);
      }
    }

    /** Encryption may fail, and the process may be killed before or after the rename; the
        partial file goes away in every other case. */
    method Publish(name: string, archive: Archive, reliable: bool) returns (published: bool, killed: bool)
      requires name !in archives && name !in partials
      modifies this
      ensures archives == if published then old(archives)[name := archive] else old(archives)
      ensures killed && !published ==> name in partials && partials == old(partials)[name := partials[name]]
      ensures published || !killed ==> partials == old(partials)
      ensures reliable ==> published && !killed
    {
      var written: Archive := *;
      killed := *;
      published := *;
      if reliable {
        published, killed := true, false;
      }
      partials := partials[name := if published then archive else written];
      if published {
        archives, partials := archives[name := partials[name]], partials - {name};
      } else if !killed {
        partials := partials - {name};
      }
    }
  }
}
