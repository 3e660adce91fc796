/**
 * The virtual-file-system vocabulary the listener consumes: files, file events,
 * and the extraction of the affected files from a batch of events.
 */
module Vfs {
  import opened Wrappers

  /** A virtual file: its full path, its base name and whether it is a directory. */
  datatype File = File(path: string, name: string, isDirectory: bool)

  /**
   * The class of a file event. The four event classes the listener filters on are
   * unrelated leaf classes, so `c.isInstance(e)` holds exactly when `e` is of class `c`;
   * `Other` stands for every other event class (creation, property change, ...).
   */
  datatype EventKind = ContentChange | Move | Copy | Delete | Other

  /** A file event; `file` is None where the event has no file to report. */
  datatype Event = Event(kind: EventKind, file: Option<File>)

  /** Some class in `classes` has the event's class as an instance. */
  predicate IsInstanceOfAny(kind: EventKind, classes: seq<EventKind>) {
    kind in classes
  }

  /** The early-return scan over the class collection. */
  method InstanceOf(kind: EventKind, classes: seq<EventKind>) returns (b: bool)
    ensures b <==> IsInstanceOfAny(kind, classes)
    ensures classes == [] ==> !b
  {
    for k := 0 to |classes|
      invariant forall j :: 0 <= j < k ==> classes[j] != kind
    {
      if classes[k] == kind {
        return true;
      }
    }
    return false;
  }

  /** Event `e` passes the class filter and reports `f`, which passes the file filter. */
  predicate Selects(e: Event, fileFilter: File -> bool, classes: seq<EventKind>, f: File) {
    IsInstanceOfAny(e.kind, classes) && e.file == Some(f) && fileFilter(f)
  }

  /** Some event of the batch selects `f`. */
  ghost predicate Affects(events: seq<Event>, fileFilter: File -> bool, classes: seq<EventKind>, f: File) {
    exists i :: 0 <= i < |events| && Selects(events[i], fileFilter, classes, f)
  }

  /**
   * The files of the events whose class is in `classes`, events without a file
   * dropped, narrowed by `fileFilter`, collected into a set.
   */
  function AffectedFiles(events: seq<Event>, fileFilter: File -> bool, classes: seq<EventKind>): set<File>
    decreases |events|
  {
    if events == [] then {}
    else
      var e := events[|events| - 1];
      var rest := AffectedFiles(events[..|events| - 1], fileFilter, classes);
      if IsInstanceOfAny(e.kind, classes) && e.file.Some? && fileFilter(e.file.value)
      then rest + {e.file.value}
      else rest
  }

  /**
   * A file is affected exactly when some event of a listed class reports it and it passes
   * the filter; duplicates collapse since the result is a set.
   */
  lemma {:induction false} AffectedFilesMembership(events: seq<Event>, fileFilter: File -> bool, classes: seq<EventKind>)
    ensures forall f :: f in AffectedFiles(events, fileFilter, classes) <==> Affects(events, fileFilter, classes, f)
    decreases |events|
  {
    if events != [] {
      var init := events[..|events| - 1];
      AffectedFilesMembership(init, fileFilter, classes);
      assert forall i :: 0 <= i < |init| ==> init[i] == events[i];
    }
  }

  /** The order of the events and repeated events do not matter: only which events occur. */
  lemma SameEventsSameFiles(a: seq<Event>, b: seq<Event>, fileFilter: File -> bool, classes: seq<EventKind>)
    requires forall e :: e in a <==> e in b
    ensures AffectedFiles(a, fileFilter, classes) == AffectedFiles(b, fileFilter, classes)
  {
    AffectedFilesMembership(a, fileFilter, classes);
    AffectedFilesMembership(b, fileFilter, classes);
    forall f | Affects(a, fileFilter, classes, f) ensures Affects(b, fileFilter, classes, f) {
      var i :| 0 <= i < |a| && Selects(a[i], fileFilter, classes, f);
      assert a[i] in b;
      var j :| 0 <= j < |b| && b[j] == a[i];
    }
    forall f | Affects(b, fileFilter, classes, f) ensures Affects(a, fileFilter, classes, f) {
      var i :| 0 <= i < |b| && Selects(b[i], fileFilter, classes, f);
      assert b[i] in a;
      var j :| 0 <= j < |a| && a[j] == b[i];
    }
  }

  /** Narrowing by a file filter is the same as filtering the unfiltered result. */
  lemma FilterNarrows(events: seq<Event>, fileFilter: File -> bool, classes: seq<EventKind>)
    ensures AffectedFiles(events, fileFilter, classes)
            == set f | f in AffectedFiles(events, _ => true, classes) && fileFilter(f)
  {
    AffectedFilesMembership(events, fileFilter, classes);
    AffectedFilesMembership(events, _ => true, classes);
    var all := AffectedFiles(events, _ => true, classes);
    forall f | f in all && fileFilter(f) ensures Affects(events, fileFilter, classes, f) {
      var i :| 0 <= i < |events| && Selects(events[i], _ => true, classes, f);
      assert Selects(events[i], fileFilter, classes, f);
    }
    forall f | Affects(events, fileFilter, classes, f) ensures f in all {
      var i :| 0 <= i < |events| && Selects(events[i], fileFilter, classes, f);
      assert Selects(events[i], _ => true, classes, f);
    }
  }

  /**
   * An event whose class is not in the filter list contributes nothing, wherever it
   * stands in the batch.
   */
  lemma {:induction false} UnlistedEventIgnored(a: seq<Event>, e: Event, b: seq<Event>, fileFilter: File -> bool, classes: seq<EventKind>)
    requires !IsInstanceOfAny(e.kind, classes)
    ensures AffectedFiles(a + [e] + b, fileFilter, classes) == AffectedFiles(a + b, fileFilter, classes)
  {
    var ab, aeb := a + b, a + [e] + b;
    AffectedFilesMembership(ab, fileFilter, classes);
    AffectedFilesMembership(aeb, fileFilter, classes);
    forall f | Affects(aeb, fileFilter, classes, f) ensures Affects(ab, fileFilter, classes, f) {
      var i :| 0 <= i < |aeb| && Selects(aeb[i], fileFilter, classes, f);
      if i < |a| {
        assert ab[i] == aeb[i];
      } else {
        assert i != |a|;
        assert ab[i - 1] == aeb[i];
      }
    }
    forall f | Affects(ab, fileFilter, classes, f) ensures Affects(aeb, fileFilter, classes, f) {
      var i :| 0 <= i < |ab| && Selects(ab[i], fileFilter, classes, f);
      if i < |a| {
        assert aeb[i] == ab[i];
      } else {
        assert aeb[i + 1] == ab[i];
      }
    }
  }

  /** A listed event contributes exactly its own file, when it has one that passes the filter. */
  lemma {:induction false} ListedEventAdds(a: seq<Event>, e: Event, b: seq<Event>, fileFilter: File -> bool, classes: seq<EventKind>)
    requires IsInstanceOfAny(e.kind, classes)
    ensures AffectedFiles(a + [e] + b, fileFilter, classes)
            == AffectedFiles(a + b, fileFilter, classes)
               + (if e.file.Some? && fileFilter(e.file.value) then {e.file.value} else {})
  {
    var ab, aeb := a + b, a + [e] + b;
    AffectedFilesMembership(ab, fileFilter, classes);
    AffectedFilesMembership(aeb, fileFilter, classes);
    var extra := if e.file.Some? && fileFilter(e.file.value) then {e.file.value} else {};
    forall f | Affects(aeb, fileFilter, classes, f) ensures Affects(ab, fileFilter, classes, f) || f in extra {
      var i :| 0 <= i < |aeb| && Selects(aeb[i], fileFilter, classes, f);
      if i < |a| {
        assert ab[i] == aeb[i];
      } else if i > |a| {
        assert ab[i - 1] == aeb[i];
      }
    }
    forall f | Affects(ab, fileFilter, classes, f) ensures Affects(aeb, fileFilter, classes, f) {
      var i :| 0 <= i < |ab| && Selects(ab[i], fileFilter, classes, f);
      if i < |a| {
        assert aeb[i] == ab[i];
      } else {
        assert aeb[i + 1] == ab[i];
      }
    }
    forall f | f in extra ensures Affects(aeb, fileFilter, classes, f) {
      assert aeb[|a|] == e;
    }
  }
}
