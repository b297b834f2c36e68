/** Storage providers (AWS S3 over REST, Supabase Storage over its SDK), the
    encrypting `StorageManager` façade, and the factory that binds one provider
    from configuration.

    The remote bucket is an in-memory map from object key to blob, held by the
    provider object; the network's answer to each request is a `Reply` parameter.
    For S3 the object key is the request URL, so the fact that every operation
    addresses the same URL is what makes upload, download and delete meet. */
module StorageProviders {
  import opened Wrappers
  import opened Text
  import opened Encryption

  const SupabaseBucket: string := "app-84kgjmh9j8qp_files"
  const DefaultRegion: string := "us-east-1"
  const DefaultProviderKind: string := "supabase"
  const ClientRequired: string := "Supabase client is required for Supabase storage provider"
  /** The status text an S3 endpoint gives for a missing object. */
  const S3NotFound: string := "Not Found"
  /** The error message the Supabase SDK gives for a missing object. */
  const SupabaseNotFound: string := "Object not found"

  /** A file picked by the user: name, bytes and MIME type (`File` in the browser). */
  datatype LocalFile = LocalFile(name: string, bytes: seq<byte>, mime: string)

  /** The build-time configuration (`import.meta.env`); each entry may be unset. */
  datatype Env = Env(
    storageProvider: Option<string>,
    s3Bucket: Option<string>,
    s3Region: Option<string>,
    s3AccessKeyId: Option<string>,
    s3SecretAccessKey: Option<string>,
    encryptionKey: Option<string>)

  /** The two provider kinds, with the settings each constructor stores. */
  datatype Backend =
    | S3(bucket: string, region: string, accessKeyId: string, secretAccessKey: string)
    | Supabase(bucketName: string)

  /** `setting || fallback`. */
  function OrDefault(setting: Option<string>, fallback: string): (r: string)
    ensures Truthy(setting) ==> r == setting.value
    ensures !Truthy(setting) ==> r == fallback
  {
    if Truthy(setting) then setting.value else fallback
  }

  // ---------------------------------------------------------------- object paths

  /** `name.split('.').pop()`: the text after the last `.`, or the whole name. */
  function Extension(name: string): (ext: string)
    ensures '.' !in ext
    ensures |ext| <= |name| && forall i :: 0 <= i < |ext| ==> ext[i] == name[|name| - |ext| + i]
    ensures |ext| == |name| || name[|name| - |ext| - 1] == '.'
  {
    if name == [] || name[|name| - 1] == '.' then []
    else Extension(name[..|name| - 1]) + [name[|name| - 1]]
  }

  /** The extension of `prefix + "." + ext` is `ext` whenever `ext` has no dot. */
  lemma {:induction false} ExtensionAfterDot(prefix: string, ext: string)
    requires '.' !in ext
    ensures Extension(prefix + "." + ext) == ext
  {
    var s := prefix + "." + ext;
    if ext != [] {
      var init, last := ext[..|ext| - 1], ext[|ext| - 1];
      assert s[..|s| - 1] == prefix + "." + init && s[|s| - 1] == last;
      assert last != '.';
      calc {
        Extension(s);
        Extension(prefix + "." + init) + [last];
        { ExtensionAfterDot(prefix, init); }
        init + [last];
        ext;
      }
    } else {
      assert s[|s| - 1] == '.';
    }
  }

  /** `${userId}/${Date.now()}_${token}.${ext}.enc` (StorageManager.uploadFile). */
  function EncryptedObjectPath(userId: string, millis: nat, token: string, name: string): string {
    userId + "/" + Decimal(millis) + "_" + token + "." + Extension(name) + ".enc"
  }

  lemma AppendAssoc(a: string, b: string, c: string)
    ensures (a + b) + c == a + (b + c)
  {
    assert forall i :: 0 <= i < |a| + |b| + |c| ==> ((a + b) + c)[i] == (a + (b + c))[i];
  }

  /** Appending keeps a prefix. */
  lemma PrefixOfAppend(a: string, b: string, n: nat)
    requires n <= |a|
    ensures (a + b)[..n] == a[..n]
  {
  }

  /** The path written as owner prefix, timestamp, `_`, and the rest. */
  lemma PathParts(userId: string, millis: nat, token: string, name: string)
    ensures EncryptedObjectPath(userId, millis, token, name)
            == (userId + "/") + (Decimal(millis) + ['_'] + (token + ['.'] + (Extension(name) + ".enc")))
    ensures EncryptedObjectPath(userId, millis, token, name)
            == (userId + "/" + Decimal(millis) + "_" + token + "." + Extension(name)) + ['.'] + "enc"
  {
    var u, d, t, e := userId + "/", Decimal(millis), token, Extension(name);
    var tail := e + ".enc";
    var w := t + ("." + tail);
    calc {
      EncryptedObjectPath(userId, millis, token, name);
      ((((u + d) + "_") + t) + "." + e) + ".enc";
      { AppendAssoc((((u + d) + "_") + t) + ".", e, ".enc"); }
      ((((u + d) + "_") + t) + ".") + tail;
      { AppendAssoc(((u + d) + "_") + t, ".", tail); }
      (((u + d) + "_") + t) + ("." + tail);
      { AppendAssoc((u + d) + "_", t, "." + tail); }
      ((u + d) + "_") + w;
      { AppendAssoc(u + d, "_", w); }
      (u + d) + ("_" + w);
      { AppendAssoc(u, d, "_" + w); }
      u + (d + ("_" + w));
      { AppendAssoc(d, "_", w); AppendAssoc(t, ".", tail); }
      u + (d + ['_'] + (t + ['.'] + tail));
    }
    AppendAssoc(((((u + d) + "_") + t) + ".") + e, ['.'], "enc");
  }

  /** The object path keeps the owner as its first segment, carries the original
      extension just before the final `.enc`, and ends in `enc`. */
  lemma EncryptedPathShape(userId: string, millis: nat, token: string, name: string)
    ensures var p := EncryptedObjectPath(userId, millis, token, name);
            && |p| >= |userId| + 5 && p[..|userId| + 1] == userId + "/"
            && p[|p| - 4..] == ".enc"
            && Extension(p) == "enc"
            && Extension(p[..|p| - 4]) == Extension(name)
  {
    var p := EncryptedObjectPath(userId, millis, token, name);
    var stem := userId + "/" + Decimal(millis) + "_" + token;
    var e := Extension(name);
    PathParts(userId, millis, token, name);
    assert p[..|p| - 4] == stem + "." + e by {
      assert p == (stem + "." + e) + ".enc";
    }
    ExtensionAfterDot(stem, e);
    ExtensionAfterDot(stem + "." + e, "enc");
  }

  /** Splitting at the first occurrence of a separator is unambiguous. */
  lemma SplitAtFirst(a: string, x: string, b: string, y: string, sep: char)
    requires sep !in a && sep !in b
    requires a + [sep] + x == b + [sep] + y
    ensures a == b && x == y
  {
    var s := a + [sep] + x;
    assert s[|a|] == sep && s[|b|] == sep;
    assert forall i :: 0 <= i < |a| ==> s[i] == a[i] != sep;
    assert forall i :: 0 <= i < |b| ==> s[i] == b[i] != sep;
    assert |a| == |b|;
    assert a == s[..|a|] && b == s[..|b|];
    assert x == s[|a| + 1..] && y == s[|b| + 1..];
  }

  lemma DecimalInjective(m: nat, n: nat)
    requires Decimal(m) == Decimal(n)
    ensures m == n
  {
    DecimalRoundTrip(m);
    DecimalRoundTrip(n);
  }

  /** Equal paths of one owner come from the same timestamp and token. */
  lemma SamePathSameStamp(userId: string, m1: nat, t1: string, n1: string,
                          m2: nat, t2: string, n2: string)
    requires '.' !in t1 && '.' !in t2
    requires EncryptedObjectPath(userId, m1, t1, n1) == EncryptedObjectPath(userId, m2, t2, n2)
    ensures m1 == m2 && t1 == t2
  {
    var u := userId + "/";
    var rest1 := t1 + ['.'] + (Extension(n1) + ".enc");
    var rest2 := t2 + ['.'] + (Extension(n2) + ".enc");
    var tail1 := Decimal(m1) + ['_'] + rest1;
    var tail2 := Decimal(m2) + ['_'] + rest2;
    PathParts(userId, m1, t1, n1);
    PathParts(userId, m2, t2, n2);
    assert tail1 == tail2 by {
      assert (u + tail1)[|u|..] == tail1;
      assert (u + tail2)[|u|..] == tail2;
    }
    assert '_' !in Decimal(m1) && '_' !in Decimal(m2);
    SplitAtFirst(Decimal(m1), rest1, Decimal(m2), rest2, '_');
    DecimalInjective(m1, m2);
    SplitAtFirst(t1, Extension(n1) + ".enc", t2, Extension(n2) + ".enc", '.');
  }

  /** Two uploads by the same owner get different paths whenever their timestamps
      or their random tokens differ (tokens cut from `Math.random().toString(36)`
      after the `0.` prefix contain no dot). */
  lemma DistinctUploadsDistinctPaths(userId: string, m1: nat, t1: string, n1: string,
                                     m2: nat, t2: string, n2: string)
    requires '.' !in t1 && '.' !in t2
    requires m1 != m2 || t1 != t2
    ensures EncryptedObjectPath(userId, m1, t1, n1) != EncryptedObjectPath(userId, m2, t2, n2)
  {
    if EncryptedObjectPath(userId, m1, t1, n1) == EncryptedObjectPath(userId, m2, t2, n2) {
      SamePathSameStamp(userId, m1, t1, n1, m2, t2, n2);
    }
  }

  // ---------------------------------------------------------------- providers

  /** `https://${bucket}.s3.${region}.amazonaws.com/${path}`. */
  function S3Url(bucket: string, region: string, path: string): string {
    "https://" + bucket + ".s3." + region + ".amazonaws.com/" + path
  }

  /** Within one bucket and region, different paths have different URLs, so
      objects never clash and the path can be read back from the URL's tail. */
  lemma S3UrlDeterminesPath(bucket: string, region: string, p1: string, p2: string)
    ensures |S3Url(bucket, region, p1)| >= |p1|
    ensures S3Url(bucket, region, p1)[|S3Url(bucket, region, p1)| - |p1|..] == p1
    ensures S3Url(bucket, region, p1) == S3Url(bucket, region, p2) ==> p1 == p2
  {
    var host := "https://" + bucket + ".s3." + region + ".amazonaws.com/";
    assert S3Url(bucket, region, p1) == host + p1;
    assert S3Url(bucket, region, p2) == host + p2;
    assert (host + p1)[|host|..] == p1;
    assert (host + p2)[|host|..] == p2;
  }

  /** The key under which a backend keeps the object at `path`: its URL for S3,
      the path inside the bucket for Supabase. */
  function ObjectKey(backend: Backend, path: string): string {
    match backend
    case S3(bucket, region, _, _) => S3Url(bucket, region, path)
    case Supabase(_) => path
  }

  /** Every operation of one provider addresses an object by the same key, and
      different paths never share a key, so each path names its own object. */
  lemma ObjectKeyDeterminesPath(backend: Backend, p1: string, p2: string)
    ensures ObjectKey(backend, p1) == ObjectKey(backend, p2) ==> p1 == p2
  {
    if backend.S3? {
      S3UrlDeterminesPath(backend.bucket, backend.region, p1, p2);
    }
  }

  /** The blob as the backend keeps it: S3 receives the blob's type as its
      `Content-Type` header, `application/octet-stream` when the type is empty. */
  function Stored(backend: Backend, file: Blob): Blob {
    if backend.S3? && file.mime == [] then Blob(file.bytes, EncryptedMime) else file
  }

  /** The provider's `name`. */
  function ProviderName(backend: Backend): (name: string)
    ensures backend.S3? <==> name == "AWS S3"
    ensures backend.Supabase? <==> name == "Supabase"
  {
    if backend.S3? then "AWS S3" else "Supabase"
  }

  /** The error an operation throws for a refused or failed request: S3 wraps a
      failure status as `S3 <op> failed: <statusText>` and rethrows anything it
      caught; Supabase throws the SDK's error. */
  function RequestError(backend: Backend, op: string, reply: Reply): (r: string)
    requires !reply.Delivered?
    ensures reply.Raised? ==> r == reply.error
    ensures reply.Refused? && backend.Supabase? ==> r == reply.status
    ensures reply.Refused? && backend.S3? ==> r == "S3 " + op + " failed: " + reply.status
  {
    match reply
    case Raised(e) => e
    case Refused(status) => if backend.S3? then "S3 " + op + " failed: " + status else status
  }

  /** `provider.uploadFile(file, path)` on a bucket holding `objects`: the result
      and the bucket afterwards. */
  function ProviderUpload(backend: Backend, objects: map<string, Blob>, file: Blob,
                          path: string, reply: Reply): (r: (Result<string>, map<string, Blob>))
    ensures r.0.Ok? <==> reply.Delivered?
    ensures r.0.Ok? ==> r.0.value == path && r.1 == objects[ObjectKey(backend, path) := Stored(backend, file)]
    ensures r.0.Err? ==> r.0.message == RequestError(backend, "upload", reply) && r.1 == objects
  {
    if reply.Delivered? then (Ok(path), objects[ObjectKey(backend, path) := Stored(backend, file)])
    else (Err(RequestError(backend, "upload", reply)), objects)
  }

  /** `provider.downloadFile(path)` on a bucket holding `objects`. A missing object
      is answered with the backend's not-found error. */
  function ProviderDownload(backend: Backend, objects: map<string, Blob>, path: string,
                            reply: Reply): (r: Result<Blob>)
    ensures r.Ok? <==> reply.Delivered? && ObjectKey(backend, path) in objects
    ensures r.Ok? ==> r.value == objects[ObjectKey(backend, path)]
    ensures !reply.Delivered? ==> r == Err(RequestError(backend, "download", reply))
  {
    if !reply.Delivered? then Err(RequestError(backend, "download", reply))
    else if ObjectKey(backend, path) in objects then Ok(objects[ObjectKey(backend, path)])
    else if backend.S3? then Err("S3 download failed: " + S3NotFound)
    else Err(SupabaseNotFound)
  }

  /** `provider.deleteFile(path)` on a bucket holding `objects`. */
  function ProviderDelete(backend: Backend, objects: map<string, Blob>, path: string,
                          reply: Reply): (r: (Result<()>, map<string, Blob>))
    ensures r.0.Ok? <==> reply.Delivered?
    ensures r.0.Ok? ==> r.1 == objects - {ObjectKey(backend, path)}
    ensures r.0.Err? ==> r.0.message == RequestError(backend, "delete", reply) && r.1 == objects
  {
    if reply.Delivered? then (Ok(()), objects - {ObjectKey(backend, path)})
    else (Err(RequestError(backend, "delete", reply)), objects)
  }

  /** `provider.getPublicUrl(path)`: S3 builds the same URL its requests use;
      Supabase passes on the SDK's `publicUrl`, or `null` when it has none. */
  function ProviderPublicUrl(backend: Backend, path: string, sdkUrl: Option<string>): (r: Option<string>)
    ensures backend.S3? ==> r == Some(ObjectKey(backend, path))
    ensures backend.Supabase? ==> (r.Some? <==> Truthy(sdkUrl)) && (r.Some? ==> r == sdkUrl)
  {
    if backend.S3? then Some(ObjectKey(backend, path))
    else if Truthy(sdkUrl) then sdkUrl else None
  }

  /** For either backend, downloading a path just uploaded gives back the stored blob. */
  lemma ProviderRoundTrip(backend: Backend, objects: map<string, Blob>, file: Blob, path: string)
    ensures ProviderDownload(backend, ProviderUpload(backend, objects, file, path, Delivered).1,
                             path, Delivered) == Ok(Stored(backend, file))
  {
  }

  /** A storage backend with its bucket contents. */
  class Provider {
    const backend: Backend
    var objects: map<string, Blob>

    constructor (backend: Backend, objects: map<string, Blob>)
      ensures this.backend == backend && this.objects == objects
    {
      this.backend := backend;
      this.objects := objects;
    }

    function Name(): string {
      ProviderName(backend)
    }

    method UploadFile(file: Blob, path: string, reply: Reply) returns (r: Result<string>)
      modifies this
      ensures (r, objects) == ProviderUpload(backend, old(objects), file, path, reply)
    {
      if !reply.Delivered? {
        return Err(RequestError(backend, "upload", reply));
      }
      objects := objects[ObjectKey(backend, path) := Stored(backend, file)];
      r := Ok(path);
    }

    method DownloadFile(path: string, reply: Reply) returns (r: Result<Blob>)
      ensures r == ProviderDownload(backend, objects, path, reply)
    {
      if !reply.Delivered? {
        return Err(RequestError(backend, "download", reply));
      }
      var key := ObjectKey(backend, path);
      if key in objects {
        r := Ok(objects[key]);
      } else if backend.S3? {
        r := Err("S3 download failed: " + S3NotFound);
      } else {
        r := Err(SupabaseNotFound);
      }
    }

    method DeleteFile(path: string, reply: Reply) returns (r: Result<()>)
      modifies this
      ensures (r, objects) == ProviderDelete(backend, old(objects), path, reply)
    {
      if !reply.Delivered? {
        return Err(RequestError(backend, "delete", reply));
      }
      objects := objects - {ObjectKey(backend, path)};
      r := Ok(());
    }

    function GetPublicUrl(path: string, sdkUrl: Option<string>): Option<string> {
      ProviderPublicUrl(backend, path, sdkUrl)
    }
  }

  // ---------------------------------------------------------------- manager

  /** `StorageManager.uploadFile(file, userId)` as a function of the bucket before
      the call: encrypt with the configured key, name the object, upload the
      envelope. Returns the result and the bucket afterwards. */
  function ManagerUpload(backend: Backend, objects: map<string, Blob>, cipher: Cipher,
                         file: LocalFile, userId: string, configured: Option<string>,
                         iv: seq<byte>, millis: nat, token: string, reply: Reply)
    : (r: (Result<string>, map<string, Blob>))
    ensures var sealed := Encrypted(cipher, file.bytes, None, configured, iv);
            var path := EncryptedObjectPath(userId, millis, token, file.name);
            && (sealed.Err? ==> r == (Err(EncryptFailure), objects))
            && (sealed.Ok? ==> r == ProviderUpload(backend, objects, sealed.value, path, reply))
            && (r.0.Ok? ==> r.0.value == path && sealed.Ok? &&
                            r.1 == objects[ObjectKey(backend, path) := Stored(backend, sealed.value)])
  {
    match Encrypted(cipher, file.bytes, None, configured, iv)
    case Err(e) => (Err(e), objects)
    case Ok(sealed) =>
      ProviderUpload(backend, objects, sealed, EncryptedObjectPath(userId, millis, token, file.name), reply)
  }

  /** `StorageManager.downloadFile(path, fileType)`: download, then decrypt with the
      configured key, labelling the plaintext with the caller's type. */
  function ManagerDownload(backend: Backend, objects: map<string, Blob>, cipher: Cipher,
                           path: string, fileType: string, configured: Option<string>,
                           reply: Reply): (r: Result<Blob>)
    ensures ProviderDownload(backend, objects, path, reply).Err? ==>
              r == Err(ProviderDownload(backend, objects, path, reply).message)
    ensures ProviderDownload(backend, objects, path, reply).Ok? ==>
              r == DecryptFile(cipher, ProviderDownload(backend, objects, path, reply).value,
                               fileType, None, configured)
  {
    match ProviderDownload(backend, objects, path, reply)
    case Err(e) => Err(e)
    case Ok(encrypted) => DecryptFile(cipher, encrypted, fileType, None, configured)
  }

  /** End to end: what `uploadFile` stored under the path it returned downloads
      and decrypts back to the file's bytes, under either backend. */
  lemma {:induction false} UploadThenDownload(backend: Backend, objects: map<string, Blob>,
                                              cipher: Cipher, file: LocalFile, userId: string,
                                              configured: Option<string>, iv: seq<byte>,
                                              millis: nat, token: string, fileType: string)
    requires RoundTrips(cipher) && |iv| == IvLength
    requires ManagerUpload(backend, objects, cipher, file, userId, configured, iv, millis, token, Delivered).0.Ok?
    ensures var (r, after) := ManagerUpload(backend, objects, cipher, file, userId, configured,
                                            iv, millis, token, Delivered);
            ManagerDownload(backend, after, cipher, r.value, fileType, configured, Delivered)
              == Ok(Blob(file.bytes, fileType))
  {
    var sealed := Encrypted(cipher, file.bytes, None, configured, iv).value;
    var path := EncryptedObjectPath(userId, millis, token, file.name);
    ProviderRoundTrip(backend, objects, sealed, path);
    assert Stored(backend, sealed) == sealed;
    DecryptAfterEncrypt(cipher, file.bytes, None, configured, iv, fileType);
  }

  /** The encrypting façade over one bound provider. */
  class StorageManager {
    const provider: Provider

    constructor (provider: Provider)
      ensures this.provider == provider
    {
      this.provider := provider;
    }

    /** Encrypt-then-put. The provider only ever receives the envelope, and the
        path returned is the one handed to the provider. */
    method UploadFile(cipher: Cipher, file: LocalFile, userId: string, configured: Option<string>,
                      iv: seq<byte>, millis: nat, token: string, reply: Reply)
      returns (r: Result<string>)
      requires |iv| == IvLength
      modifies provider
      ensures (r, provider.objects) == ManagerUpload(provider.backend, old(provider.objects), cipher,
                                                     file, userId, configured, iv, millis, token, reply)
    {
      var encrypted := EncryptFile(cipher, file.bytes, None, configured, iv);
      if encrypted.Err? {
        return Err(encrypted.message);
      }
      var path := EncryptedObjectPath(userId, millis, token, file.name);
      var uploaded := provider.UploadFile(encrypted.value, path, reply);
      if uploaded.Err? {
        return Err(uploaded.message);
      }
      r := Ok(path);
    }

    /** Get-then-decrypt. */
    method DownloadFile(cipher: Cipher, path: string, fileType: string, configured: Option<string>,
                        reply: Reply) returns (r: Result<Blob>)
      ensures r == ManagerDownload(provider.backend, provider.objects, cipher, path, fileType,
                                   configured, reply)
    {
      var encrypted := provider.DownloadFile(path, reply);
      if encrypted.Err? {
        return Err(encrypted.message);
      }
      r := DecryptFile(cipher, encrypted.value, fileType, None, configured);
    }

    /** Delegates to the provider with the same path. */
    method DeleteFile(path: string, reply: Reply) returns (r: Result<()>)
      modifies provider
      ensures (r, provider.objects) == ProviderDelete(provider.backend, old(provider.objects), path, reply)
    {
      r := provider.DeleteFile(path, reply);
    }

    function GetPublicUrl(path: string, sdkUrl: Option<string>): (r: Option<string>)
      ensures r == ProviderPublicUrl(provider.backend, path, sdkUrl)
    {
      provider.GetPublicUrl(path, sdkUrl)
    }

    function GetProviderName(): (name: string)
      ensures name == ProviderName(provider.backend)
    {
      provider.Name()
    }
  }

  // ---------------------------------------------------------------- factory

  /** The provider kind `createStorageManager` selects, lower-casing the configured
      kind (default `supabase`): `s3` and `aws` choose S3 with its settings from the
      configuration; anything else chooses Supabase and needs a client. */
  function SelectBackend(env: Env, hasClient: bool): (r: Result<Backend>)
    ensures var kind := ToLowerAscii(OrDefault(env.storageProvider, DefaultProviderKind));
            && (r.Ok? && r.value.S3? <==> kind == "s3" || kind == "aws")
            && (r.Err? <==> kind != "s3" && kind != "aws" && !hasClient)
            && (r.Err? ==> r.message == ClientRequired)
            && (r.Ok? && r.value.Supabase? ==> r.value.bucketName == SupabaseBucket)
            && (r.Ok? && r.value.S3? ==>
                  r.value.bucket == OrDefault(env.s3Bucket, "") &&
                  r.value.region == OrDefault(env.s3Region, DefaultRegion))
  {
    var kind := ToLowerAscii(OrDefault(env.storageProvider, DefaultProviderKind));
    if kind == "s3" || kind == "aws" then
      Ok(S3(OrDefault(env.s3Bucket, ""), OrDefault(env.s3Region, DefaultRegion),
            OrDefault(env.s3AccessKeyId, ""), OrDefault(env.s3SecretAccessKey, "")))
    else if !hasClient then Err(ClientRequired)
    else Ok(Supabase(SupabaseBucket))
  }

  /** Without any configured kind, and without a client, construction fails. */
  lemma DefaultNeedsClient(env: Env)
    requires env.storageProvider == None
    ensures SelectBackend(env, false) == Err(ClientRequired)
    ensures SelectBackend(env, true) == Ok(Supabase(SupabaseBucket))
  {
    assert ToLowerAscii(DefaultProviderKind) == DefaultProviderKind;
  }

  /** `createStorageManager(supabaseClient)`; `remote` is what the selected bucket
      already holds. */
  method CreateStorageManager(env: Env, hasClient: bool, remote: map<string, Blob>)
    returns (r: Result<StorageManager>)
    ensures SelectBackend(env, hasClient).Err? ==> r == Err(ClientRequired)
    ensures SelectBackend(env, hasClient).Ok? ==>
              r.Ok? && fresh(r.value) && fresh(r.value.provider) &&
              r.value.provider.backend == SelectBackend(env, hasClient).value &&
              r.value.provider.objects == remote
  {
    var backend := SelectBackend(env, hasClient);
    if backend.Err? {
      return Err(backend.message);
    }
    var provider := new Provider(backend.value, remote);
    var manager := new StorageManager(provider);
    r := Ok(manager);
  }
}
