/**
 * Facility photos: in production (a browser window with the storage service
 * configured) they are uploaded to a bucket under the facility's id; otherwise
 * their data URLs are appended to a per-facility list in the browser's local
 * storage. Compressed files are renamed to `<name>-compressed.jpg`.
 */
module Images {
  import opened Wrappers
  import opened JsValues

  datatype Category = FacilityPhoto | Entrance | Surroundings

  /** An image as the app lists it: its URL and, when known, what it shows. */
  datatype ImageMeta = ImageMeta(url: string, category: Option<Category>)

  /** What the running page provides: a window, the build's mode and storage settings, and whether the storage client could be created. */
  datatype Device = Device(hasWindow: bool, nodeEnv: Option<string>, supabaseUrl: Option<string>, anonKey: Option<string>, clientCreated: bool)

  /** `isProdSupabaseReady()` */
  predicate ProdSupabaseReady(d: Device) {
    d.hasWindow && d.nodeEnv == Some("production") && Truthy(d.supabaseUrl) && Truthy(d.anonKey)
  }

  /**
   * A file picked for upload, with what the outside world does with it: the
   * data URL its compression yields, the time-and-random stamp its remote name
   * gets, and whether the remote upload succeeds.
   */
  datatype Pending = Pending(category: Option<Category>, dataUrl: string, stamp: string, uploadSucceeds: bool)

  // ---------------------------------------------------------------- the compressed file name

  /** The length of the run of non-dot characters that ends `s`. */
  function TrailLen(s: string): (n: nat)
    ensures n <= |s|
    ensures forall i :: |s| - n <= i < |s| ==> s[i] != '.'
    ensures n < |s| ==> s[|s| - n - 1] == '.'
  {
    if s == [] || s[|s| - 1] == '.' then 0 else TrailLen(s[..|s| - 1]) + 1
  }

  /** `name.replace(/\.[^.]+$/, '')`: removes a final dot with at least one non-dot after it. */
  function StripExtension(s: string): string {
    var n := TrailLen(s);
    if 0 < n < |s| then s[..|s| - n - 1] else s
  }

  /** The compressed file's name. */
  function CompressedName(name: string): (r: string)
    ensures EndsWith(r, "-compressed.jpg")
  {
    var base := StripExtension(name);
    assert (base + "-compressed.jpg")[|base|..] == "-compressed.jpg";
    base + "-compressed.jpg"
  }

  predicate EndsWith(s: string, suffix: string) {
    |suffix| <= |s| && s[|s| - |suffix|..] == suffix
  }

  /** `s` ends with a dot followed by one or more characters none of which is a dot. */
  predicate HasExtension(s: string) {
    exists i :: 0 <= i < |s| - 1 && s[i] == '.' && NoDotAfter(s, i)
  }

  predicate NoDotAfter(s: string, i: int) {
    forall j :: 0 <= i < j < |s| ==> s[j] != '.'
  }

  /**
   * The rewrite removes exactly the last extension: the name is kept whole
   * when it has none, and otherwise loses its final dot and what follows it,
   * which is not empty and holds no other dot.
   */
  lemma StripExtensionExact(s: string)
    ensures StripExtension(s) <= s
    ensures StripExtension(s) == s <==> !HasExtension(s)
    ensures StripExtension(s) != s ==>
      var r := StripExtension(s);
      |r| < |s| - 1 && s[|r|] == '.' && NoDotAfter(s, |r|)
  {
    var n := TrailLen(s);
    if 0 < n < |s| {
      assert NoDotAfter(s, |s| - n - 1);
    }
  }

  /** The last extension goes, an earlier one stays. */
  lemma ExampleTwoExtensions()
    ensures CompressedName("a.b.c") == "a.b-compressed.jpg"
  {
    assert "a.b.c"[..4] == "a.b.";
    assert "a.b.c"[..3] == "a.b";
  }

  /** A name ending in a dot keeps it. */
  lemma ExampleTrailingDot()
    ensures CompressedName("a.") == "a.-compressed.jpg"
  {
  }

  // ---------------------------------------------------------------- keys and paths

  /** The local-storage key of a facility's list. */
  function LocalKey(facilityId: int): string {
    "facility-images-" + IntToString(facilityId)
  }

  /** The folder of a facility's objects in the bucket. */
  function Prefix(facilityId: int): string {
    IntToString(facilityId) + "/"
  }

  /** The object path an upload gets. */
  function RemotePath(facilityId: int, stamp: string): string {
    Prefix(facilityId) + stamp + ".jpg"
  }

  /** The decimal text of an integer holds no slash. */
  lemma IntToStringNoSlash(n: int)
    ensures forall i :: 0 <= i < |IntToString(n)| ==> IntToString(n)[i] != '/'
  {
    if n < 0 {
      assert forall i :: 1 <= i < |IntToString(n)| ==> IntToString(n)[i] == NatToString(-n)[i - 1];
    }
  }

  /** Different facilities never share a local-storage key. */
  lemma LocalKeyInjective(a: int, b: int)
    requires LocalKey(a) == LocalKey(b)
    ensures a == b
  {
    var k := |"facility-images-"|;
    assert LocalKey(a)[k..] == IntToString(a);
    assert LocalKey(b)[k..] == IntToString(b);
    IntToStringRoundTrip(a);
    IntToStringRoundTrip(b);
  }

  lemma PrefixAt(a: string, b: string, i: int)
    requires a <= b && 0 <= i < |a|
    ensures a[i] == b[i]
  {
    assert a == b[..|a|];
  }

  /** A text with no slash ends before a slash only where the other does too. */
  lemma SlashSeparated(x: string, y: string, rest: string)
    requires forall i :: 0 <= i < |x| ==> x[i] != '/'
    requires forall i :: 0 <= i < |y| ==> y[i] != '/'
    requires x + "/" <= y + "/" + rest
    ensures x == y
  {
    var whole := y + "/" + rest;
    var m := if |x| < |y| then |x| else |y|;
    PrefixAt(x + "/", whole, m);
    if |x| != |y| {
      assert false;
    } else {
      assert x == (x + "/")[..|x|] == whole[..|y|] == y;
    }
  }

  /** Listing a facility's folder finds its own uploads and never another facility's. */
  lemma PrefixSelectsFacility(a: int, b: int, stamp: string)
    ensures Prefix(a) <= RemotePath(b, stamp) <==> a == b
  {
    if Prefix(a) <= RemotePath(b, stamp) {
      IntToStringNoSlash(a);
      IntToStringNoSlash(b);
      assert RemotePath(b, stamp) == IntToString(b) + "/" + (stamp + ".jpg");
      SlashSeparated(IntToString(a), IntToString(b), stamp + ".jpg");
      IntToStringRoundTrip(a);
      IntToStringRoundTrip(b);
    }
  }

  // ---------------------------------------------------------------- what the uploads produce

  /** The list stored under `key`, or none. */
  function Stored(local: map<string, seq<ImageMeta>>, key: string): seq<ImageMeta> {
    if key in local then local[key] else []
  }

  /** The entries the local branch appends: one per file, its data URL and category, in order. */
  function LocalEntries(files: seq<Pending>): (r: seq<ImageMeta>)
    ensures |r| == |files|
    ensures forall i :: 0 <= i < |files| ==> r[i] == ImageMeta(files[i].dataUrl, files[i].category)
  {
    if files == [] then []
    else LocalEntries(files[..|files| - 1]) + [ImageMeta(files[|files| - 1].dataUrl, files[|files| - 1].category)]
  }

  /** The files whose remote upload succeeds, in order. */
  function Succeeded(files: seq<Pending>): seq<Pending> {
    if files == [] then []
    else Succeeded(files[..|files| - 1]) + if files[|files| - 1].uploadSucceeds then [files[|files| - 1]] else []
  }

  /** The objects the remote branch creates: one per successful upload, in order. */
  function StoredPaths(facilityId: int, files: seq<Pending>): seq<string> {
    if files == [] then []
    else
      var f := files[|files| - 1];
      StoredPaths(facilityId, files[..|files| - 1]) + if f.uploadSucceeds then [RemotePath(facilityId, f.stamp)] else []
  }

  /** What the remote branch returns: the public URL and category of each successful upload, in order. */
  function RemoteUploads(facilityId: int, files: seq<Pending>, publicUrl: string -> string): seq<ImageMeta> {
    if files == [] then []
    else
      var f := files[|files| - 1];
      RemoteUploads(facilityId, files[..|files| - 1], publicUrl)
      + if f.uploadSucceeds then [ImageMeta(publicUrl(RemotePath(facilityId, f.stamp)), f.category)] else []
  }

  /**
   * Failed uploads are skipped and the rest kept in order: the result and the
   * new objects pair up one to one with the successful files, and every new
   * object lies in the facility's folder.
   */
  lemma {:induction false} RemoteUploadsMatch(facilityId: int, files: seq<Pending>, publicUrl: string -> string)
    ensures var ok := Succeeded(files);
      var paths := StoredPaths(facilityId, files);
      var ups := RemoteUploads(facilityId, files, publicUrl);
      && |paths| == |ok| && |ups| == |ok|
      && (forall i :: 0 <= i < |ok| ==> paths[i] == RemotePath(facilityId, ok[i].stamp))
      && (forall i :: 0 <= i < |ok| ==> ups[i] == ImageMeta(publicUrl(paths[i]), ok[i].category))
      && (forall i :: 0 <= i < |ok| ==> ok[i].uploadSucceeds && ok[i] in files)
  {
    if files != [] {
      RemoteUploadsMatch(facilityId, files[..|files| - 1], publicUrl);
      var ok := Succeeded(files[..|files| - 1]);
      assert forall i :: 0 <= i < |ok| ==> ok[i] in files[..|files| - 1] ==> ok[i] in files;
    }
  }

  /** What the remote listing returns: the public URL of each listed name, in the facility's folder, with no category. */
  function ListedImages(facilityId: int, names: seq<string>, publicUrl: string -> string): (r: seq<ImageMeta>)
    ensures |r| == |names|
    ensures forall i :: 0 <= i < |names| ==> r[i] == ImageMeta(publicUrl(Prefix(facilityId) + names[i]), None)
  {
    if names == [] then []
    else ListedImages(facilityId, names[..|names| - 1], publicUrl) + [ImageMeta(publicUrl(Prefix(facilityId) + names[|names| - 1]), None)]
  }

  /** Writing one facility's list leaves every other facility's list as it was. */
  lemma OtherFacilitiesKept(local: map<string, seq<ImageMeta>>, a: int, b: int, list: seq<ImageMeta>)
    requires a != b
    ensures Stored(local[LocalKey(a) := list], LocalKey(b)) == Stored(local, LocalKey(b))
  {
    if LocalKey(a) == LocalKey(b) {
      LocalKeyInjective(a, b);
    }
  }

  /** The app's image storage: the browser's local lists by key, and the paths of the objects in the bucket. */
  class ImageStorage {
    var local: map<string, seq<ImageMeta>>
    var bucket: seq<string>

    constructor ()
      ensures local == map[] && bucket == []
    {
      local := map[];
      bucket := [];
    }

    /**
     * `uploadFacilityImages`: nothing happens without files or without a
     * window; in production the successful uploads are returned; otherwise the
     * new entries are appended to the facility's stored list, which is returned
     * whole and is what a later read returns.
     */
    method UploadFacilityImages(facilityId: int, files: seq<Pending>, d: Device, publicUrl: string -> string)
      returns (uploads: seq<ImageMeta>)
      modifies this
      ensures files == [] || !d.hasWindow || (ProdSupabaseReady(d) && !d.clientCreated) ==>
        uploads == [] && local == old(local) && bucket == old(bucket)
      ensures files != [] && ProdSupabaseReady(d) && d.clientCreated ==>
        && uploads == RemoteUploads(facilityId, files, publicUrl)
        && bucket == old(bucket) + StoredPaths(facilityId, files)
        && local == old(local)
      ensures files != [] && d.hasWindow && !ProdSupabaseReady(d) ==>
        && local == old(local)[LocalKey(facilityId) := Stored(old(local), LocalKey(facilityId)) + LocalEntries(files)]
        && uploads == Stored(local, LocalKey(facilityId))
        && bucket == old(bucket)
    {
      uploads := [];
      if files == [] || !d.hasWindow {
        return;
      }
      if ProdSupabaseReady(d) {
        if !d.clientCreated {
          return;
        }
        uploads := UploadRemote(facilityId, files, publicUrl);
      } else {
        var existing := AppendLocal(facilityId, files);
        uploads := uploads + existing;
      }
    }

    /** The remote loop: each file is uploaded under the facility's folder; a failed upload is skipped. */
    method UploadRemote(facilityId: int, files: seq<Pending>, publicUrl: string -> string) returns (uploads: seq<ImageMeta>)
      modifies this
      ensures uploads == RemoteUploads(facilityId, files, publicUrl)
      ensures bucket == old(bucket) + StoredPaths(facilityId, files)
      ensures local == old(local)
    {
      uploads := [];
      for i := 0 to |files|
        invariant uploads == RemoteUploads(facilityId, files[..i], publicUrl)
        invariant bucket == old(bucket) + StoredPaths(facilityId, files[..i])
        invariant local == old(local)
      {
        assert files[..i + 1][..i] == files[..i];
        var path := RemotePath(facilityId, files[i].stamp);
        if !files[i].uploadSucceeds {
          continue;
        }
        bucket := bucket + [path];
        uploads := uploads + [ImageMeta(publicUrl(path), files[i].category)];
      }
      assert files[..|files|] == files;
    }

    /** The local branch: the new entries are appended to the facility's stored list, which is written back and returned. */
    method AppendLocal(facilityId: int, files: seq<Pending>) returns (existing: seq<ImageMeta>)
      modifies this
      ensures existing == Stored(old(local), LocalKey(facilityId)) + LocalEntries(files)
      ensures local == old(local)[LocalKey(facilityId) := existing]
      ensures bucket == old(bucket)
    {
      var key := LocalKey(facilityId);
      existing := if key in local then local[key] else [];
      for i := 0 to |files|
        invariant existing == Stored(old(local), key) + LocalEntries(files[..i])
      {
        assert files[..i + 1][..i] == files[..i];
        existing := existing + [ImageMeta(files[i].dataUrl, files[i].category)];
      }
      assert files[..|files|] == files;
      local := local[key := existing];
    }

    /**
     * `getFacilityImages`: nothing without a window; in production the listing
     * of the facility's folder (nothing when the client or the listing fails);
     * otherwise exactly the facility's stored list, or nothing.
     */
    method GetFacilityImages(facilityId: int, d: Device, listing: Option<seq<string>>, publicUrl: string -> string)
      returns (images: seq<ImageMeta>)
      ensures !d.hasWindow ==> images == []
      ensures ProdSupabaseReady(d) ==>
        images == if d.clientCreated && listing.Some? then ListedImages(facilityId, listing.value, publicUrl) else []
      ensures d.hasWindow && !ProdSupabaseReady(d) ==> images == Stored(local, LocalKey(facilityId))
    {
      if !d.hasWindow {
        return [];
      }
      if ProdSupabaseReady(d) {
        if !d.clientCreated || listing.None? {
          return [];
        }
        var prefix := Prefix(facilityId);
        var names := listing.value;
        images := [];
        for i := 0 to |names|
          invariant images == ListedImages(facilityId, names[..i], publicUrl)
        {
          assert names[..i + 1][..i] == names[..i];
          images := images + [ImageMeta(publicUrl(prefix + names[i]), None)];
        }
        assert names[..|names|] == names;
        return;
      }
      var key := LocalKey(facilityId);
      images := if key in local then local[key] else [];
    }
  }
}
