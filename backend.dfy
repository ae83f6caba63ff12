/**
 * The storage backend behind a `RemoteStorage` bucket, abstracted to the
 * objects it holds, in the order the backend lists them. Listing is by string
 * prefix, as the real backends do, so that a listing of "a/b" also returns
 * "a/b2": that is the reason for the false-positive test of the planners.
 */
module Buckets {
  import opened Wrappers
  import opened PyStrings
  import opened SyncObjects

  type Bucket = seq<RemoteObject>

  /** `bucket.list_objects(prefix)`: every object whose name starts with `prefix`, in bucket order. */
  function ListObjects(bucket: Bucket, prefix: string): (r: seq<RemoteObject>)
    ensures |r| <= |bucket|
    ensures forall o :: o in r <==> o in bucket && StartsWith(o.name, prefix)
  {
    if bucket == [] then []
    else (if StartsWith(bucket[0].name, prefix) then [bucket[0]] else []) + ListObjects(bucket[1..], prefix)
  }

  /** The object stored under `name`, if any (the first one, in listing order). */
  function Find(bucket: Bucket, name: string): (r: Option<RemoteObject>)
    ensures r.Some? ==> r.value in bucket && r.value.name == name
    ensures r.None? ==> forall o :: o in bucket ==> o.name != name
  {
    if bucket == [] then None
    else if bucket[0].name == name then Some(bucket[0])
    else Find(bucket[1..], name)
  }

  /** `upload_object`: the uploaded object replaces the one of the same name, or is added at the end. */
  function Upload(bucket: Bucket, obj: RemoteObject): (r: Bucket)
    ensures obj in r
    ensures forall o :: o in r ==> o == obj || o in bucket
    ensures forall o :: o in bucket && o.name != obj.name ==> o in r
  {
    if bucket == [] then [obj]
    else if bucket[0].name == obj.name then [obj] + bucket[1..]
    else [bucket[0]] + Upload(bucket[1..], obj)
  }

  /** After an upload, the name is found with the uploaded content, whatever it held before. */
  lemma {:induction false} FindAfterUpload(bucket: Bucket, obj: RemoteObject)
    ensures Find(Upload(bucket, obj), obj.name) == Some(obj)
  {
    if bucket != [] && bucket[0].name != obj.name {
      FindAfterUpload(bucket[1..], obj);
    }
  }

  /** An upload changes nothing about other names. */
  lemma {:induction false} FindOtherAfterUpload(bucket: Bucket, obj: RemoteObject, name: string)
    requires name != obj.name
    ensures Find(Upload(bucket, obj), name) == Find(bucket, name)
  {
    if bucket != [] && bucket[0].name != obj.name {
      FindOtherAfterUpload(bucket[1..], obj, name);
    }
  }

  /** `delete_object`: the first occurrence is removed; a missing object is an error of the backend. */
  function DeleteObject(bucket: Bucket, obj: RemoteObject): (r: Result<Bucket>)
    ensures r.Ok? <==> obj in bucket
    ensures r.Err? ==> r.error == ObjectDoesNotExist
    ensures r.Ok? ==> |r.value| == |bucket| - 1 && multiset(r.value) == multiset(bucket) - multiset{obj}
  {
    if bucket == [] then Err(ObjectDoesNotExist)
    else if bucket[0] == obj then
      assert bucket == [obj] + bucket[1..];
      Ok(bucket[1..])
    else
      match DeleteObject(bucket[1..], obj)
      case Err(e) => Err(e)
      case Ok(rest) =>
        assert bucket == [bucket[0]] + bucket[1..];
        Ok([bucket[0]] + rest)
  }

  /** A listing holds each object at most as often as the bucket does. */
  lemma {:induction false} ListObjectsSubMultiset(bucket: Bucket, prefix: string)
    ensures multiset(ListObjects(bucket, prefix)) <= multiset(bucket)
  {
    if bucket != [] {
      ListObjectsSubMultiset(bucket[1..], prefix);
      assert bucket == [bucket[0]] + bucket[1..];
    }
  }
}
