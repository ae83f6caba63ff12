/**
 * `TransactionSummary` of src/accsr/remote_storage.py. The class keeps the
 * source's lists as sequence fields and the collision dictionary as a map; a
 * ghost history of the `add_entry` calls, and `Valid()`, tie every bucket to a
 * filter of that history, so that the derived properties (`files_to_sync`,
 * `requires_force`, `has_unresolvable_collisions`) are proved once, on the
 * history.
 */
module Summaries {
  import opened Wrappers
  import opened SyncObjects

  /** What an entry collides with: several remote objects (push) or a local directory (pull). */
  datatype Collision = CollidingObjects(objects: seq<RemoteObject>) | CollidingLocalPath(path: string)

  /** Python truthiness of the `collides_with` argument: None, [] and "" are false. */
  predicate Truthy(c: Option<Collision>) {
    match c
    case None => false
    case Some(CollidingObjects(objs)) => objs != []
    case Some(CollidingLocalPath(p)) => p != []
  }

  /** The arguments of one `add_entry` call. */
  datatype Entry = Entry(obj: SyncObject, collidesWith: Option<Collision>, skip: bool)

  /** The list an entry lands in (collisions go to the collision map). */
  datatype Category = Skipped | Collided | OnTargetEqual | OnTargetDifferent | NotOnTarget

  /** The decision of `add_entry`, in the order of its branches. */
  function Classify(e: Entry): Category {
    if e.skip then Skipped
    else if Truthy(e.collidesWith) then Collided
    else if e.obj.ExistsOnTarget() then
      (if e.obj.EqualMd5HashSum() then OnTargetEqual else OnTargetDifferent)
    else NotOnTarget
  }

  /** The objects of the entries classified as `b`, in the order they were added. */
  function Select(es: seq<Entry>, b: Category): (r: seq<SyncObject>)
    ensures |r| <= |es|
  {
    if es == [] then []
    else Select(es[..|es| - 1], b) + (if Classify(es[|es| - 1]) == b then [es[|es| - 1].obj] else [])
  }

  /** The objects of the entries that were not skipped, in order (`matched_source_files`). */
  function Matched(es: seq<Entry>): (r: seq<SyncObject>)
    ensures |r| <= |es|
  {
    if es == [] then []
    else Matched(es[..|es| - 1]) + (if es[|es| - 1].skip then [] else [es[|es| - 1].obj])
  }

  /** The collision dictionary after the entries were added: the last write to a name wins. */
  function Collisions(es: seq<Entry>): map<string, Collision> {
    if es == [] then map[]
    else
      var e := es[|es| - 1];
      if Classify(e) == Collided then Collisions(es[..|es| - 1])[e.obj.Name() := e.collidesWith.value]
      else Collisions(es[..|es| - 1])
  }

  /** `sum(obj.get_bytes_transferred() for obj in objs)`: the first failing object raises. */
  function SumBytes(objs: seq<SyncObject>): Result<nat> {
    if objs == [] then Ok(0)
    else
      match objs[0].BytesTransferred()
      case Err(e) => Err(e)
      case Ok(n) =>
        match SumBytes(objs[1..])
        case Err(e) => Err(e)
        case Ok(m) => Ok(n + m)
  }

  class TransactionSummary {
    var matchedSourceFiles: seq<SyncObject>
    var notOnTarget: seq<SyncObject>
    var onTargetEqMd5: seq<SyncObject>
    var onTargetNeqMd5: seq<SyncObject>
    var unresolvableCollisions: map<string, Collision>
    var skippedSourceFiles: seq<SyncObject>
    var syncedFiles: seq<SyncObject>
    var syncDirection: Option<Direction>
    /** The `add_entry` calls made so far. */
    ghost var entries: seq<Entry>

    /** Every bucket is the filter of the history that `add_entry` defines. */
    ghost predicate Valid()
      reads this
    {
      && matchedSourceFiles == Matched(entries)
      && notOnTarget == Select(entries, NotOnTarget)
      && onTargetEqMd5 == Select(entries, OnTargetEqual)
      && onTargetNeqMd5 == Select(entries, OnTargetDifferent)
      && skippedSourceFiles == Select(entries, Skipped)
      && unresolvableCollisions == Collisions(entries)
    }

    /** `TransactionSummary(sync_direction=...)`: every list and the dictionary empty. */
    constructor (direction: Option<Direction>)
      ensures Valid() && entries == []
      ensures syncDirection == direction && syncedFiles == []
      ensures matchedSourceFiles == [] && notOnTarget == [] && onTargetEqMd5 == []
      ensures onTargetNeqMd5 == [] && skippedSourceFiles == [] && unresolvableCollisions == map[]
    {
      matchedSourceFiles, notOnTarget, onTargetEqMd5, onTargetNeqMd5 := [], [], [], [];
      unresolvableCollisions, skippedSourceFiles, syncedFiles := map[], [], [];
      syncDirection := direction;
      entries := [];
    }

    /** `files_to_sync` */
    function FilesToSync(): seq<SyncObject>
      reads this
    {
      notOnTarget + onTargetNeqMd5
    }

    /** `requires_force` */
    predicate RequiresForce()
      reads this
    {
      |onTargetNeqMd5| != 0
    }

    /** `has_unresolvable_collisions` */
    predicate HasUnresolvableCollisions()
      reads this
    {
      |unresolvableCollisions| != 0
    }

    /** `all_files_analyzed` */
    function AllFilesAnalyzed(): seq<SyncObject>
      reads this
    {
      skippedSourceFiles + matchedSourceFiles
    }

    /** `size_files_to_sync` */
    function SizeFilesToSync(): Result<nat>
      reads this
    {
      SumBytes(FilesToSync())
    }

    /**
     * `add_entry`: a skipped object only goes to `skipped_source_files`; any other
     * object goes to `matched_source_files` and to exactly one of the collision map,
     * `on_target_eq_md5`, `on_target_neq_md5` and `not_on_target`.
     */
    method AddEntry(obj: SyncObject, collidesWith: Option<Collision>, skip: bool)
      requires Valid()
      modifies this
      ensures Valid() && entries == old(entries) + [Entry(obj, collidesWith, skip)]
      ensures syncedFiles == old(syncedFiles) && syncDirection == old(syncDirection)
      ensures skip ==>
        && skippedSourceFiles == old(skippedSourceFiles) + [obj]
        && matchedSourceFiles == old(matchedSourceFiles)
        && notOnTarget == old(notOnTarget) && onTargetEqMd5 == old(onTargetEqMd5)
        && onTargetNeqMd5 == old(onTargetNeqMd5) && unresolvableCollisions == old(unresolvableCollisions)
      ensures !skip ==>
        && skippedSourceFiles == old(skippedSourceFiles)
        && matchedSourceFiles == old(matchedSourceFiles) + [obj]
      ensures var b := Classify(Entry(obj, collidesWith, skip));
        && notOnTarget == old(notOnTarget) + (if b == NotOnTarget then [obj] else [])
        && onTargetEqMd5 == old(onTargetEqMd5) + (if b == OnTargetEqual then [obj] else [])
        && onTargetNeqMd5 == old(onTargetNeqMd5) + (if b == OnTargetDifferent then [obj] else [])
        && unresolvableCollisions ==
             (if b == Collided then old(unresolvableCollisions)[obj.Name() := collidesWith.value]
              else old(unresolvableCollisions))
    {
      var e := Entry(obj, collidesWith, skip);
      FiltersSnoc(entries, e);
      entries := entries + [e];
      if skip {
        skippedSourceFiles := skippedSourceFiles + [obj];
      } else {
        matchedSourceFiles := matchedSourceFiles + [obj];
        if Truthy(collidesWith) {
          unresolvableCollisions := unresolvableCollisions[obj.Name() := collidesWith.value];
        } else if obj.ExistsOnTarget() {
          if obj.EqualMd5HashSum() {
            onTargetEqMd5 := onTargetEqMd5 + [obj];
          } else {
            onTargetNeqMd5 := onTargetNeqMd5 + [obj];
          }
        } else {
          notOnTarget := notOnTarget + [obj];
        }
      }
    }

    /**
     * Under `Valid()`, `files_to_sync` holds exactly the matched objects that do not
     * exist on the target or differ there, `requires_force` holds iff some matched
     * object differs on the target, and collisions exist iff some entry collided.
     */
    lemma DerivedProperties()
      requires Valid()
      ensures FilesToSync() == Select(entries, NotOnTarget) + Select(entries, OnTargetDifferent)
      ensures RequiresForce() <==> exists i :: 0 <= i < |entries| && Classify(entries[i]) == OnTargetDifferent
      ensures HasUnresolvableCollisions() <==> exists i :: 0 <= i < |entries| && Classify(entries[i]) == Collided
      ensures |matchedSourceFiles| ==
        |CollidedObjects()| + |onTargetEqMd5| + |onTargetNeqMd5| + |notOnTarget|
    {
      SelectNonEmpty(entries, OnTargetDifferent);
      CollisionsNonEmpty(entries);
      MatchedCount(entries);
    }

    /** The matched objects that collided, in the order they were added. */
    ghost function CollidedObjects(): seq<SyncObject>
      reads this
    {
      Select(entries, Collided)
    }
  }

  /** What one more `add_entry` call does to each filter of the history. */
  lemma FiltersSnoc(es: seq<Entry>, e: Entry)
    ensures forall b :: Select(es + [e], b) == Select(es, b) + (if Classify(e) == b then [e.obj] else [])
    ensures Matched(es + [e]) == Matched(es) + (if e.skip then [] else [e.obj])
    ensures Collisions(es + [e]) ==
      (if Classify(e) == Collided then Collisions(es)[e.obj.Name() := e.collidesWith.value] else Collisions(es))
  {
    assert (es + [e])[..|es|] == es;
  }

  /** An object is in bucket `b` iff some entry classified `b` carried it. */
  lemma {:induction false} SelectMembers(es: seq<Entry>, b: Category, o: SyncObject)
    ensures o in Select(es, b) <==> exists i :: 0 <= i < |es| && Classify(es[i]) == b && es[i].obj == o
  {
    if es != [] {
      var init := es[..|es| - 1];
      SelectMembers(init, b, o);
      if o in Select(es, b) && o !in Select(init, b) {
        assert Classify(es[|es| - 1]) == b && es[|es| - 1].obj == o;
      }
      if exists i :: 0 <= i < |es| && Classify(es[i]) == b && es[i].obj == o {
        var i :| 0 <= i < |es| && Classify(es[i]) == b && es[i].obj == o;
        if i < |es| - 1 {
          assert init[i] == es[i];
        }
      }
    }
  }

  /** A bucket is non-empty iff some entry was classified into it. */
  lemma {:induction false} SelectNonEmpty(es: seq<Entry>, b: Category)
    ensures |Select(es, b)| != 0 <==> exists i :: 0 <= i < |es| && Classify(es[i]) == b
  {
    if es != [] {
      var init := es[..|es| - 1];
      SelectNonEmpty(init, b);
      if exists i :: 0 <= i < |init| && Classify(init[i]) == b {
        var i :| 0 <= i < |init| && Classify(init[i]) == b;
        assert es[i] == init[i];
      }
      if exists i :: 0 <= i < |es| && Classify(es[i]) == b {
        var i :| 0 <= i < |es| && Classify(es[i]) == b;
        if i < |es| - 1 {
          assert init[i] == es[i];
        }
      }
    }
  }

  /** The collision map is non-empty iff some entry was classified as a collision. */
  lemma {:induction false} CollisionsNonEmpty(es: seq<Entry>)
    ensures |Collisions(es)| != 0 <==> exists i :: 0 <= i < |es| && Classify(es[i]) == Collided
  {
    if es != [] {
      var init := es[..|es| - 1];
      var e := es[|es| - 1];
      CollisionsNonEmpty(init);
      if Classify(e) == Collided {
        assert e.obj.Name() in Collisions(es);
      } else if exists i :: 0 <= i < |es| && Classify(es[i]) == Collided {
        var i :| 0 <= i < |es| && Classify(es[i]) == Collided;
        assert i < |es| - 1 && init[i] == es[i];
      }
      if exists i :: 0 <= i < |init| && Classify(init[i]) == Collided {
        var i :| 0 <= i < |init| && Classify(init[i]) == Collided;
        assert es[i] == init[i];
      }
    }
  }

  /**
   * Every matched object lands in exactly one of the four buckets: the matched list is,
   * as a multiset, the union of the collided, equal, different and missing buckets.
   */
  lemma {:induction false} MatchedPartition(es: seq<Entry>)
    ensures multiset(Matched(es)) ==
      multiset(Select(es, Collided)) + multiset(Select(es, OnTargetEqual))
      + multiset(Select(es, OnTargetDifferent)) + multiset(Select(es, NotOnTarget))
  {
    if es != [] {
      var init, e := es[..|es| - 1], es[|es| - 1];
      assert es == init + [e];
      MatchedPartition(init);
      SelectSnoc(init, e, Collided);
      SelectSnoc(init, e, OnTargetEqual);
      SelectSnoc(init, e, OnTargetDifferent);
      SelectSnoc(init, e, NotOnTarget);
      MatchedSnoc(init, e);
    }
  }

  lemma SelectSnoc(es: seq<Entry>, e: Entry, b: Category)
    ensures multiset(Select(es + [e], b)) == multiset(Select(es, b)) + (if Classify(e) == b then multiset{e.obj} else multiset{})
  {
    assert (es + [e])[..|es|] == es;
  }

  lemma MatchedSnoc(es: seq<Entry>, e: Entry)
    ensures multiset(Matched(es + [e])) == multiset(Matched(es)) + (if e.skip then multiset{} else multiset{e.obj})
  {
    assert (es + [e])[..|es|] == es;
  }

  /** The same partition, counted: no matched object is lost or counted twice. */
  lemma {:induction false} MatchedCount(es: seq<Entry>)
    ensures |Matched(es)| ==
      |Select(es, Collided)| + |Select(es, OnTargetEqual)| + |Select(es, OnTargetDifferent)| + |Select(es, NotOnTarget)|
  {
    if es != [] {
      var init, e := es[..|es| - 1], es[|es| - 1];
      assert es == init + [e];
      MatchedCount(init);
      FiltersSnoc(init, e);
    }
  }

  /** The skipped and the matched objects together are all entries (`all_files_analyzed`). */
  lemma {:induction false} AnalyzedCount(es: seq<Entry>)
    ensures |Select(es, Skipped)| + |Matched(es)| == |es|
  {
    if es != [] {
      AnalyzedCount(es[..|es| - 1]);
    }
  }

  /** The total size is defined iff every object's transfer size is, and then it is their sum. */
  lemma {:induction false} SumBytesAppend(a: seq<SyncObject>, b: seq<SyncObject>)
    ensures SumBytes(a + b).Ok? <==> SumBytes(a).Ok? && SumBytes(b).Ok?
    ensures SumBytes(a + b).Ok? ==> SumBytes(a + b).value == SumBytes(a).value + SumBytes(b).value
  {
    if a == [] {
      assert a + b == b;
    } else {
      assert (a + b)[0] == a[0];
      assert (a + b)[1..] == a[1..] + b;
      SumBytesAppend(a[1..], b);
    }
  }

  /** `size_files_to_sync` raises iff some object lacks the side its direction transfers from. */
  lemma {:induction false} SumBytesOk(objs: seq<SyncObject>)
    ensures SumBytes(objs).Ok? <==> forall i :: 0 <= i < |objs| ==> objs[i].BytesTransferred().Ok?
  {
    if objs != [] {
      SumBytesOk(objs[1..]);
      assert forall i :: 1 <= i < |objs| ==> objs[i] == objs[1..][i - 1];
    }
  }
}
