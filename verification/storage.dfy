/** Photo storage paths (src/lib/server/storage.ts): the configured bucket,
    the object path an upload uses, and the path recovered from a public URL.
    The bucket setting and the random UUID are parameters; the upload and
    the URL the store hands back are oracles. */
module Storage {
  import opened Wrappers
  import opened Strings

  const MissingBucket := "Missing SUPABASE_STORAGE_BUCKET"

  /** `getBucket`: an unset or empty setting throws before any storage call. */
  function GetBucket(setting: Option<string>): (r: Result<string, string>)
    ensures r.Failure? <==> setting.None? || setting.value == []
    ensures r.Failure? ==> r.error == MissingBucket
    ensures r.Success? ==> r.value == setting.value && r.value != []
  {
    if setting.None? || setting.value == [] then Failure(MissingBucket) else Success(setting.value)
  }

  /** The part of a public URL that precedes the object path. */
  function Marker(bucket: string): (m: string)
    ensures |m| == |bucket| + 16
    ensures m[0] == '/' && m[|m| - 1] == '/'
  {
    "/object/public/" + bucket + "/"
  }

  /** `extractStoragePath`: Success(None) is `null`, when the marker is absent;
      otherwise the text after its first occurrence. */
  function ExtractStoragePath(url: string, setting: Option<string>): (r: Result<Option<string>, string>)
    ensures r.Failure? <==> GetBucket(setting).Failure?
    ensures r.Success? ==> (r.value.None? <==> !Contains(url, Marker(setting.value)))
    ensures r.Success? && r.value.Some? ==> IsSuffix(r.value.value, url)
  {
    var bucket := GetBucket(setting);
    if bucket.Failure? then Failure(bucket.error)
    else
      var marker := Marker(bucket.value);
      var index := IndexOf(url, marker);
      if index == -1 then Success(None) else Success(Some(url[index + |marker|..]))
  }

  predicate IsSuffix(p: string, s: string) {
    |p| <= |s| && s[|s| - |p|..] == p
  }

  /** Round trip: when no occurrence of the marker starts inside `prefix`,
      the path comes back whole, whatever it contains. */
  lemma ExtractRoundTrip(prefix: string, bucket: string, path: string)
    requires bucket != []
    requires forall i :: 0 <= i < |prefix| ==> !OccursAt(prefix + Marker(bucket) + path, Marker(bucket), i)
    ensures ExtractStoragePath(prefix + Marker(bucket) + path, Some(bucket)) == Success(Some(path))
  {
    var m := Marker(bucket);
    var url := prefix + m + path;
    OccursInConcat(prefix, m, path);
    var index := IndexOf(url, m);
    assert index != -1 by { assert OccursAt(url, m, |prefix|); }
    assert index == |prefix|;
    assert url[|prefix| + |m|..] == path;
  }

  /** A prefix that merely does not contain the marker is not enough: the
      marker's leading `/` can complete an earlier occurrence. */
  lemma PrefixWithoutMarkerIsNotEnough()
    ensures !Contains("/object/public/b", Marker("b"))
    ensures ExtractStoragePath("/object/public/b" + Marker("b") + "x.jpg", Some("b"))
      == Success(Some("object/public/b/x.jpg"))
  {
    var m := Marker("b");
    var url := "/object/public/b" + m + "x.jpg";
    assert |m| == 17 && |url| == 38;
    assert url[0..17] == m by {
      assert url == m + ("object/public/b/" + "x.jpg");
    }
    assert url[17..] == "object/public/b/x.jpg";
  }

  /** The object path of an upload: `${animalId}/${uuid}-${fileName}`. */
  function UploadPath(animalId: string, uuid: string, fileName: string): (p: string)
    ensures IsPrefix(animalId + "/", p)
    ensures IsSuffix("-" + fileName, p)
  {
    assert animalId + "/" + uuid + "-" + fileName == (animalId + "/") + (uuid + "-" + fileName);
    assert animalId + "/" + uuid + "-" + fileName == (animalId + "/" + uuid) + ("-" + fileName);
    animalId + "/" + uuid + "-" + fileName
  }

  datatype Upload = Upload(path: string, publicUrl: string)

  /** `uploadAnimalPhoto`: the bucket is read before anything is sent; a
      failed upload throws. `publicUrl` is what the store returns for a path. */
  function UploadAnimalPhoto(setting: Option<string>, animalId: string, uuid: string, fileName: string,
                             uploadFails: bool, publicUrl: string -> string): (r: Result<Upload, string>)
    ensures GetBucket(setting).Failure? ==> r == Failure(MissingBucket)
    ensures r.Success? ==>
      (r.value.path == UploadPath(animalId, uuid, fileName) && r.value.publicUrl == publicUrl(r.value.path))
    ensures r.Success? <==> GetBucket(setting).Success? && !uploadFails
  {
    var bucket := GetBucket(setting);
    if bucket.Failure? then Failure(bucket.error)
    else if uploadFails then Failure("upload failed")
    else
      var path := UploadPath(animalId, uuid, fileName);
      Success(Upload(path, publicUrl(path)))
  }

  /** A photo uploaded under a store whose public URLs are `base + marker + path`,
      with no marker starting inside `base`, can be located again from its URL. */
  lemma UploadThenExtract(bucket: string, base: string, animalId: string, uuid: string, fileName: string)
    requires bucket != []
    requires forall p: string, i :: 0 <= i < |base| ==> !OccursAt(base + Marker(bucket) + p, Marker(bucket), i)
    ensures var up := UploadAnimalPhoto(Some(bucket), animalId, uuid, fileName, false, p => base + Marker(bucket) + p);
      up.Success? && ExtractStoragePath(up.value.publicUrl, Some(bucket)) == Success(Some(up.value.path))
  {
    var path := UploadPath(animalId, uuid, fileName);
    ExtractRoundTrip(base, bucket, path);
  }
}
