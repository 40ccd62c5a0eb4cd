/**
 Binding a saved image archive to the digest locked for it. The archive is its tar members in order;
 `loads` stands for the JSON parser and `hash` for SHA-256 in hexadecimal.
 */
module ArchiveIdentity {
  import opened Common
  import opened CanonicalJson
  import opened ArchiveStream

  datatype Kind = File | Directory | Other

  datatype Entry = Entry(name: string, kind: Kind, content: Bytes)

  type Loads = Bytes -> Option<Json>

  datatype Caps = Caps(layer: nat, json: nat, members: nat)

  predicate IsHex(c: char) {
    '0' <= c <= '9' || 'a' <= c <= 'f'
  }

  predicate IsDigest(s: string) {
    |s| == 71 && s[..7] == "sha256:" && forall i :: 7 <= i < 71 ==> IsHex(s[i])
  }

  // ---- the member index ----

  function Components(name: string): (r: seq<string>)
    ensures r != []
  {
    if name == [] then [[]]
    else
      var rest := Components(name[1..]);
      if name[0] == '/' then [[]] + rest else [[name[0]] + rest[0]] + rest[1..]
  }

  /** A relative path in normal form: no empty, `.` or `..` component and no backslash. */
  predicate IsSafeName(name: string) {
    '\\' !in name
    && (name == "." || forall i :: 0 <= i < |Components(name)| ==>
                         Components(name)[i] != [] && Components(name)[i] != "." && Components(name)[i] != "..")
  }

  /** Parts with a slash between them. */
  function Slashed(parts: seq<string>): string
    requires parts != []
  {
    if |parts| == 1 then parts[0] else parts[0] + "/" + Slashed(parts[1..])
  }

  lemma {:induction false} SlashedComponents(name: string)
    ensures Slashed(Components(name)) == name
    ensures forall i :: 0 <= i < |Components(name)| ==> '/' !in Components(name)[i]
  {
    if name != [] {
      var rest := Components(name[1..]);
      SlashedComponents(name[1..]);
      assert name == [name[0]] + name[1..];
      if name[0] == '/' {
        assert ([[]] + rest)[1..] == rest;
        assert [] + "/" + Slashed(rest) == name;
      } else {
        var parts := [[name[0]] + rest[0]] + rest[1..];
        assert parts[1..] == rest[1..];
        if |rest| > 1 {
          assert parts[0] + "/" + Slashed(rest[1..]) == [name[0]] + (rest[0] + "/" + Slashed(rest[1..]));
        }
      }
    }
  }

  lemma {:induction false} ComponentsOfPart(part: string)
    requires '/' !in part
    ensures Components(part) == [part]
  {
    if part != [] {
      assert forall c :: c in part[1..] ==> c in part;
      ComponentsOfPart(part[1..]);
      assert part == [part[0]] + part[1..];
    }
  }

  lemma {:induction false} ComponentsBehind(part: string, name: string)
    requires '/' !in part
    ensures Components(part + "/" + name) == [part] + Components(name)
  {
    var all := part + "/" + name;
    if part == [] {
      assert all[1..] == name;
    } else {
      assert forall c :: c in part[1..] ==> c in part;
      ComponentsBehind(part[1..], name);
      assert all[1..] == part[1..] + "/" + name;
      assert part == [part[0]] + part[1..];
      assert ([part[1..]] + Components(name))[1..] == Components(name);
    }
  }

  lemma {:induction false} ComponentsOfSlashed(parts: seq<string>)
    requires parts != [] && forall i :: 0 <= i < |parts| ==> '/' !in parts[i]
    ensures Components(Slashed(parts)) == parts
  {
    if |parts| == 1 {
      ComponentsOfPart(parts[0]);
    } else {
      ComponentsOfSlashed(parts[1..]);
      ComponentsBehind(parts[0], Slashed(parts[1..]));
    }
  }

  predicate IsNormalPart(part: string) {
    part != [] && '/' !in part && part != "." && part != ".."
  }

  /** A safe name is the dot alone, or parts joined by single slashes, none of them empty or a dot or two. */
  lemma SafeNameIff(name: string)
    ensures IsSafeName(name) <==>
              && '\\' !in name
              && (name == "."
                  || exists parts: seq<string> :: parts != [] && name == Slashed(parts)
                                                  && forall i :: 0 <= i < |parts| ==> IsNormalPart(parts[i]))
  {
    SlashedComponents(name);
    hide Slashed, Components;
    if parts: seq<string> :| parts != [] && name == Slashed(parts)
                             && forall i :: 0 <= i < |parts| ==> IsNormalPart(parts[i]) {
      ComponentsOfSlashed(parts);
    }
  }

  type Index = map<string, Entry>

  /** The index of an archive holds each of its entries once, under a safe name. */
  ghost predicate Indexes(members: Index, entries: seq<Entry>) {
    && (forall i :: 0 <= i < |entries| ==> entries[i].name in members && members[entries[i].name] == entries[i])
    && (forall name :: name in members ==> members[name] in entries && members[name].name == name)
    && (forall i :: 0 <= i < |entries| ==> IsSafeName(entries[i].name) && !entries[i].kind.Other?)
    && forall i, j :: 0 <= i < j < |entries| ==> entries[i].name != entries[j].name
  }

  method IndexMembers(entries: seq<Entry>, cap: nat) returns (r: Result<Index>)
    ensures r.Ok? ==> |entries| <= cap && Indexes(r.value, entries)
    ensures r.Ok? <==>
              && |entries| <= cap
              && (forall i :: 0 <= i < |entries| ==> IsSafeName(entries[i].name) && !entries[i].kind.Other?)
              && forall i, j :: 0 <= i < j < |entries| ==> entries[i].name != entries[j].name
  {
    hide IsSafeName;
    var members: Index := map[];
    var count := 0;
    while count < |entries|
      invariant 0 <= count <= |entries| && count <= cap
      invariant Indexes(members, entries[..count])
    {
      var item := entries[count];
      if count + 1 > cap {
        return Err("docker-save archive exceeds member count cap");
      }
      if !IsSafeName(item.name) {
        return Err("unsafe docker-save member name");
      }
      if item.kind.Other? {
        return Err("non-regular docker-save member");
      }
      if item.name in members {
        return Err("duplicate docker-save member");
      }
      members := members[item.name := item];
      assert entries[..count + 1] == entries[..count] + [item];
      count := count + 1;
    }
    assert entries[..count] == entries;
    r := Ok(members);
  }

  /** A whole regular member whose size is within the JSON cap. */
  function ReadJson(members: Index, name: Option<Json>, cap: nat): (r: Result<Bytes>)
    ensures r.Ok? ==> name.Some? && name.value.Str? && FileIs(members, name.value.s, r.value)
  {
    if name.None? || !name.value.Str? || name.value.s !in members || !members[name.value.s].kind.File? then
      Err("invalid docker-save member")
    else if |members[name.value.s].content| > cap then Err("docker-save JSON member exceeds size cap")
    else Ok(members[name.value.s].content)
  }

  predicate FileIs(members: Index, name: string, content: Bytes) {
    name in members && members[name].kind.File? && members[name].content == content
  }

  function BlobName(digest: string): string {
    "blobs/" + (if |digest| > 6 && digest[6] == ':' then digest[..6] + "/" + digest[7..] else digest)
  }

  /** A blob is read by its digest and must hash to it. */
  function Blob(members: Index, digest: string, cap: nat, hash: Bytes -> string): (r: Result<Bytes>)
    ensures r.Ok? ==> Digest(hash, r.value) == digest
  {
    match ReadJson(members, Some(Str(BlobName(digest))), cap)
    case Err(e) => Err(e)
    case Ok(data) => if Digest(hash, data) == digest then Ok(data) else Err("blob does not hash to its name")
  }

  // ---- reading the documents ----

  function Get(j: Json, key: string): Option<Json> {
    if j.Obj? && key in j.members then Some(j.members[key]) else None
  }

  predicate IsPlatform(j: Json) {
    && Get(j, "os") == Some(Str("linux")) && Get(j, "architecture") == Some(Str("arm64"))
    && (Get(j, "variant") == None || Get(j, "variant") == Some(Null) || Get(j, "variant") == Some(Str("v8")))
  }

  predicate IsPlatformItem(j: Json) {
    j.Obj? && Get(j, "platform").Some? && Get(j, "platform").value.Obj? && IsPlatform(Get(j, "platform").value)
  }

  function PlatformItems(items: seq<Json>): seq<Json> {
    if items == [] then []
    else (if IsPlatformItem(items[0]) then [items[0]] else []) + PlatformItems(items[1..])
  }

  /** The digest of the one linux/arm64 manifest in a manifest list. */
  function PlatformManifest(index: Json): Result<string> {
    var manifests := Get(index, "manifests");
    if manifests.None? || !manifests.value.Arr? then Err("invalid manifest list")
    else
      var matches := PlatformItems(manifests.value.items);
      if |matches| != 1 then Err("expected exactly one linux/arm64 manifest")
      else
        var digest := Get(matches[0], "digest");
        if digest.Some? && digest.value.Str? && IsDigest(digest.value.s) then Ok(digest.value.s)
        else Err("invalid platform manifest digest")
  }

  /** The layer digests an image configuration lists. */
  function DiffIds(config: Json): Option<seq<Json>> {
    var rootfs := Get(config, "rootfs");
    if rootfs.None? then None
    else
      var ids := Get(rootfs.value, "diff_ids");
      if ids.Some? && ids.value.Arr? then Some(ids.value.items) else None
  }

  /** Layer entries' digests as an image manifest lists them. */
  function LayerDigests(layers: seq<Json>): (r: seq<Option<Json>>)
    ensures |r| == |layers| && forall i :: 0 <= i < |layers| ==> r[i] == Get(layers[i], "digest")
  {
    seq(|layers|, i requires 0 <= i < |layers| => Get(layers[i], "digest"))
  }

  function Strings(digests: seq<string>): (r: seq<Option<Json>>)
    ensures |r| == |digests| && forall i :: 0 <= i < |digests| ==> r[i] == Some(Str(digests[i]))
  {
    seq(|digests|, i requires 0 <= i < |digests| => Some(Str(digests[i])))
  }

  // ---- what an accepted archive is ----

  /** The JSON parser, the hash and the caps of a check. */
  datatype Env = Env(loads: Loads, hash: Bytes -> string, caps: Caps)

  /** What manifest.json names: the configuration's bytes, the layer names, and the digests listed for them. */
  datatype Handed = Handed(config: Bytes, names: seq<Json>, ids: seq<Json>)

  /** What the scanner is handed: the configuration, the stored layer files and their uncompressed contents. */
  datatype Image = Image(handed: Handed, layers: seq<Bytes>, plains: seq<Bytes>)

  datatype Route = ByConfig | ByManifest

  /** manifest.json describes one image with this configuration, for the platform, and these layers. */
  ghost predicate Names(env: Env, members: Index, h: Handed) {
    && (exists manifest: Bytes, image: Json, configName: string ::
          && FileIs(members, "manifest.json", manifest) && |manifest| <= env.caps.json
          && env.loads(manifest) == Some(Arr([image]))
          && Get(image, "Config") == Some(Str(configName)) && FileIs(members, configName, h.config)
          && Get(image, "Layers") == Some(Arr(h.names)))
    && |h.config| <= env.caps.json
    && env.loads(h.config).Some? && IsPlatform(env.loads(h.config).value)
    && DiffIds(env.loads(h.config).value) == Some(h.ids)
    && |h.names| == |h.ids|
  }

  /** This file is the named layer, and it unpacks within the cap to content with the listed digest. */
  ghost predicate LayerBinds(env: Env, contents: Members, members: Index, name: Json, id: Json, file: Bytes,
                             plain: Bytes) {
    && name.Str? && FileIs(members, name.s, file)
    && !IsZstd(file) && Unpacks(contents, file, plain) && |plain| <= env.caps.layer
    && id == Str(Digest(env.hash, plain))
  }

  ghost predicate LayersBind(env: Env, contents: Members, members: Index, image: Image) {
    && |image.layers| == |image.plains| == |image.handed.names| == |image.handed.ids|
    && forall i :: 0 <= i < |image.layers| ==>
         LayerBinds(env, contents, members, image.handed.names[i], image.handed.ids[i], image.layers[i],
                    image.plains[i])
  }

  predicate BlobIs(env: Env, members: Index, digest: string, data: Bytes) {
    FileIs(members, BlobName(digest), data) && |data| <= env.caps.json && Digest(env.hash, data) == digest
  }

  function Digests(hash: Bytes -> string, files: seq<Bytes>): (r: seq<string>)
    ensures |r| == |files| && forall i :: 0 <= i < |files| ==> r[i] == Digest(hash, files[i])
  {
    seq(|files|, i requires 0 <= i < |files| => Digest(hash, files[i]))
  }

  /** An image manifest for this configuration and these layer files. */
  predicate ManifestBinds(env: Env, image: Option<Json>, config: Bytes, layers: seq<Bytes>) {
    && image.Some? && Get(image.value, "manifests") == None
    && Get(image.value, "config").Some?
    && Get(Get(image.value, "config").value, "digest") == Some(Str(Digest(env.hash, config)))
    && Get(image.value, "layers").Some? && Get(image.value, "layers").value.Arr?
    && LayerDigests(Get(image.value, "layers").value.items) == Strings(Digests(env.hash, layers))
  }

  /** A list whose entry for the platform is the digest of an image manifest in the archive. */
  ghost predicate ListBinds(env: Env, members: Index, list: Json, config: Bytes, layers: seq<Bytes>) {
    && PlatformManifest(list).Ok?
    && exists blob :: BlobIs(env, members, PlatformManifest(list).value, blob)
                      && ManifestBinds(env, env.loads(blob), config, layers)
  }

  /** The locked blob is an image manifest, or a list that leads to one. */
  ghost predicate LockedBlob(env: Env, members: Index, top: Option<Json>, config: Bytes, layers: seq<Bytes>) {
    && top.Some? && top.value.Obj?
    && if Get(top.value, "manifests").Some? then ListBinds(env, members, top.value, config, layers)
       else ManifestBinds(env, top, config, layers)
  }

  ghost predicate LockBinds(env: Env, members: Index, expected: string, config: Bytes, layers: seq<Bytes>) {
    exists top :: BlobIs(env, members, expected, top) && LockedBlob(env, members, env.loads(top), config, layers)
  }

  ghost predicate AcceptedIn(env: Env, contents: Members, members: Index, expected: string, route: Route,
                             image: Image) {
    && Names(env, members, image.handed)
    && LayersBind(env, contents, members, image)
    && match route
       case ByConfig => expected == Digest(env.hash, image.handed.config)
       case ByManifest =>
         && expected != Digest(env.hash, image.handed.config)
         && LockBinds(env, members, expected, image.handed.config, image.layers)
  }

  /** The archive hands over this image, and every byte of it is bound to the locked digest. */
  ghost predicate Accepted(env: Env, contents: Members, entries: seq<Entry>, expected: string, route: Route,
                           image: Image) {
    && IsDigest(expected) && |entries| <= env.caps.members
    && exists members :: Indexes(members, entries) && AcceptedIn(env, contents, members, expected, route, image)
  }

  // ---- one digest, one image ----

  ghost predicate CollisionFree(hash: Bytes -> string) {
    forall a, b :: hash(a) == hash(b) ==> a == b
  }

  lemma DigestInjective(hash: Bytes -> string, a: Bytes, b: Bytes)
    requires CollisionFree(hash) && Digest(hash, a) == Digest(hash, b)
    ensures a == b
  {
    assert Digest(hash, a)[7..] == hash(a) && Digest(hash, b)[7..] == hash(b);
  }

  lemma SameFiles(hash: Bytes -> string, a: seq<Bytes>, b: seq<Bytes>)
    requires CollisionFree(hash) && Strings(Digests(hash, a)) == Strings(Digests(hash, b))
    ensures a == b
  {
    hide Digest;
    assert |a| == |b|;
    forall i | 0 <= i < |a|
      ensures a[i] == b[i]
    {
      assert Strings(Digests(hash, a))[i] == Strings(Digests(hash, b))[i];
      DigestInjective(hash, a[i], b[i]);
    }
  }

  lemma ManifestPinsImage(env: Env, json: Option<Json>, config: Bytes, layers: seq<Bytes>, config': Bytes,
                          layers': seq<Bytes>)
    requires CollisionFree(env.hash)
    requires ManifestBinds(env, json, config, layers) && ManifestBinds(env, json, config', layers')
    ensures config == config' && layers == layers'
  {
    hide Digest;
    DigestInjective(env.hash, config, config');
    SameFiles(env.hash, layers, layers');
  }

  lemma LockPinsImage(env: Env, expected: string, members: Index, config: Bytes, layers: seq<Bytes>,
                      members': Index, config': Bytes, layers': seq<Bytes>)
    requires CollisionFree(env.hash)
    requires LockBinds(env, members, expected, config, layers) && LockBinds(env, members', expected, config', layers')
    ensures config == config' && layers == layers'
  {
    hide Digest, PlatformManifest, ManifestBinds, FileIs;
    var top :| BlobIs(env, members, expected, top) && LockedBlob(env, members, env.loads(top), config, layers);
    var top' :| BlobIs(env, members', expected, top') && LockedBlob(env, members', env.loads(top'), config', layers');
    DigestInjective(env.hash, top, top');
    var json := env.loads(top);
    if Get(json.value, "manifests").Some? {
      var digest := PlatformManifest(json.value).value;
      var blob :| BlobIs(env, members, digest, blob) && ManifestBinds(env, env.loads(blob), config, layers);
      var blob' :| BlobIs(env, members', digest, blob') && ManifestBinds(env, env.loads(blob'), config', layers');
      DigestInjective(env.hash, blob, blob');
      ManifestPinsImage(env, env.loads(blob), config, layers, config', layers');
    } else {
      ManifestPinsImage(env, json, config, layers, config', layers');
    }
  }

  /**
   Two archives accepted for one locked digest by the same route hand over the same configuration
   bytes and layers with the same uncompressed contents in the same order; by the manifest route the
   stored layer files are the same too.
   */
  lemma OneDigestOneImage(env: Env, contents: Members, expected: string, route: Route,
                          entries: seq<Entry>, image: Image, entries': seq<Entry>, image': Image)
    requires CollisionFree(env.hash)
    requires Accepted(env, contents, entries, expected, route, image)
    requires Accepted(env, contents, entries', expected, route, image')
    ensures image.handed.config == image'.handed.config && image.plains == image'.plains
    ensures route == ByManifest ==> image.layers == image'.layers
  {
    hide Digest, LockBinds, Indexes, Unpacks, IsPlatform, DiffIds, FileIs, IsDigest, IsZstd;
    var m :| Indexes(m, entries) && AcceptedIn(env, contents, m, expected, route, image);
    var m' :| Indexes(m', entries') && AcceptedIn(env, contents, m', expected, route, image');
    var config, config' := image.handed.config, image'.handed.config;
    if route == ByConfig {
      DigestInjective(env.hash, config, config');
    } else {
      LockPinsImage(env, expected, m, config, image.layers, m', config', image'.layers);
    }
    var ids := image.handed.ids;
    assert ids == image'.handed.ids;
    forall i | 0 <= i < |ids|
      ensures image.plains[i] == image'.plains[i]
    {
      assert ids[i] == Str(Digest(env.hash, image.plains[i])) == Str(Digest(env.hash, image'.plains[i]));
      DigestInjective(env.hash, image.plains[i], image'.plains[i]);
    }
  }

  // ---- the check ----

  /** The same description as the check comes to it: document by document. */
  predicate Reads(env: Env, members: Index, h: Handed) {
    var manifest := ReadJson(members, Some(Str("manifest.json")), env.caps.json);
    && manifest.Ok?
    && var images := env.loads(manifest.value);
       && images.Some? && images.value.Arr? && |images.value.items| == 1 && images.value.items[0].Obj?
       && ReadJson(members, Get(images.value.items[0], "Config"), env.caps.json) == Ok(h.config)
       && env.loads(h.config).Some? && env.loads(h.config).value.Obj? && IsPlatform(env.loads(h.config).value)
       && Get(images.value.items[0], "Layers") == Some(Arr(h.names))
       && DiffIds(env.loads(h.config).value) == Some(h.ids)
       && |h.names| == |h.ids|
  }

  lemma NamesIffReads(env: Env, members: Index, h: Handed)
    ensures Names(env, members, h) <==> Reads(env, members, h)
  {
    hide DiffIds;
    if Reads(env, members, h) {
      var manifest := ReadJson(members, Some(Str("manifest.json")), env.caps.json).value;
      var images := env.loads(manifest).value;
      var image := images.items[0];
      assert images == Arr([image]);
      var name := Get(image, "Config").value.s;
      assert FileIs(members, "manifest.json", manifest) && FileIs(members, name, h.config);
    }
  }

  method ReadImage(members: Index, env: Env) returns (r: Result<Handed>)
    ensures r.Ok? ==> Names(env, members, r.value)
    ensures forall h :: Names(env, members, h) ==> r == Ok(h)
  {
    forall h
      ensures Names(env, members, h) <==> Reads(env, members, h)
    {
      NamesIffReads(env, members, h);
    }
    hide Names, IsPlatform, DiffIds, ReadJson, Get;
    var manifest := ReadJson(members, Some(Str("manifest.json")), env.caps.json);
    if manifest.Err? {
      return Err(manifest.error);
    }
    var images := env.loads(manifest.value);
    if images.None? || !images.value.Arr? || |images.value.items| != 1 || !images.value.items[0].Obj? {
      return Err("SBOM requires a single-image docker-save archive");
    }
    var image := images.value.items[0];
    var config := ReadJson(members, Get(image, "Config"), env.caps.json);
    if config.Err? {
      return Err(config.error);
    }
    var configJson := env.loads(config.value);
    if configJson.None? || !configJson.value.Obj? {
      return Err("invalid image config JSON");
    }
    if !IsPlatform(configJson.value) {
      return Err("image config is not linux/arm64");
    }
    var names, ids := Get(image, "Layers"), DiffIds(configJson.value);
    if names.None? || !names.value.Arr? || ids.None? || |names.value.items| != |ids.value| {
      return Err("manifest.json Layers do not match config rootfs.diff_ids");
    }
    r := Ok(Handed(config.value, names.value.items, ids.value));
  }

  ghost predicate LayerOk(env: Env, contents: Members, members: Index, name: Json, id: Json) {
    exists file, plain :: LayerBinds(env, contents, members, name, id, file, plain)
  }

  /** Layer by layer: hashes the named file and compares its content's digest with the listed one. */
  method CheckLayers(env: Env, members: Index, handed: Handed, zlib: Zlib, ghost contents: Members)
    returns (r: Result<seq<string>>, ghost image: Image)
    requires Contract(zlib, contents) && |handed.names| == |handed.ids|
    ensures image.handed == handed
    ensures r.Ok? ==> LayersBind(env, contents, members, image) && r.value == Digests(env.hash, image.layers)
    ensures PrefixFree(contents) && Accurate(zlib, contents) ==>
              (r.Ok? <==> forall i :: 0 <= i < |handed.names| ==>
                            LayerOk(env, contents, members, handed.names[i], handed.ids[i]))
  {
    hide Contract, PrefixFree, Accurate, Digest, LayerBinds, LayerOk, FileIs;
    var stored: seq<string> := [];
    ghost var layers: seq<Bytes>, plains: seq<Bytes> := [], [];
    image := Image(handed, [], []);
    for i := 0 to |handed.names|
      invariant |layers| == |plains| == i && stored == Digests(env.hash, layers)
      invariant forall j :: 0 <= j < i ==>
                  LayerBinds(env, contents, members, handed.names[j], handed.ids[j], layers[j], plains[j])
    {
      ghost var plain: Bytes;
      var digest;
      digest, plain := CheckLayer(env, members, handed.names[i], handed.ids[i], zlib, contents);
      if digest.Err? {
        return Err(digest.error), image;
      }
      layers, plains := layers + [members[handed.names[i].s].content], plains + [plain];
      stored := stored + [digest.value];
    }
    image := Image(handed, layers, plains);
    forall i | 0 <= i < |handed.names|
      ensures LayerOk(env, contents, members, handed.names[i], handed.ids[i])
    {
      BoundIsOk(env, contents, members, handed.names[i], handed.ids[i], layers[i], plains[i]);
    }
    r := Ok(stored);
  }

  lemma BoundIsOk(env: Env, contents: Members, members: Index, name: Json, id: Json, file: Bytes, plain: Bytes)
    requires LayerBinds(env, contents, members, name, id, file, plain)
    ensures LayerOk(env, contents, members, name, id)
  {
  }

  method CheckLayer(env: Env, members: Index, name: Json, id: Json, zlib: Zlib, ghost contents: Members)
    returns (r: Result<string>, ghost plain: Bytes)
    requires Contract(zlib, contents)
    ensures r.Ok? ==>
              && name.Str? && name.s in members && r.value == Digest(env.hash, members[name.s].content)
              && LayerBinds(env, contents, members, name, id, members[name.s].content, plain)
    ensures PrefixFree(contents) && Accurate(zlib, contents) ==>
              (r.Ok? <==> LayerOk(env, contents, members, name, id))
  {
    hide Contract, PrefixFree, Accurate, Digest, Gunzips, Bounded;
    plain := [];
    if !name.Str? || name.s !in members || !members[name.s].kind.File? {
      return Err("invalid docker-save member"), plain;
    }
    var file := members[name.s].content;
    var digests;
    ghost var pieces;
    digests, plain, pieces := StreamDigests(file, env.caps.layer, zlib, env.hash, contents);
    if digests.Err? {
      return Err(digests.error), plain;
    }
    BoundedPlain(pieces, plain, env.caps.layer);
    if PrefixFree(contents) {
      forall other | Unpacks(contents, file, other)
        ensures other == plain
      {
        UnpacksOnce(contents, file, other, plain);
      }
    }
    if id != Str(digests.value.1) {
      return Err("layer does not match config diff_id"), plain;
    }
    r := Ok(digests.value.0);
  }

  lemma BoundedPlain(pieces: seq<Bytes>, plain: Bytes, cap: nat)
    requires Bounded(pieces, plain, cap)
    ensures |plain| <= cap
  {
  }

  /** Walks from the locked digest to the image manifest and compares it with what was hashed. */
  function CheckLock(env: Env, members: Index, expected: string, configDigest: string,
                     storedDigests: seq<string>): Result<()> {
    match Blob(members, expected, env.caps.json, env.hash)
    case Err(e) => Err(e)
    case Ok(topBytes) =>
      var top := env.loads(topBytes);
      if top.None? || !top.value.Obj? then Err("invalid locked manifest")
      else if Get(top.value, "manifests").Some? then
        match PlatformManifest(top.value)
        case Err(e) => Err(e)
        case Ok(digest) =>
          match Blob(members, digest, env.caps.json, env.hash)
          case Err(e) => Err(e)
          case Ok(imageBytes) => CheckImage(env.loads(imageBytes), configDigest, storedDigests)
      else CheckImage(top, configDigest, storedDigests)
  }

  function CheckImage(image: Option<Json>, configDigest: string, storedDigests: seq<string>): Result<()> {
    if image.None? || !image.value.Obj? || Get(image.value, "manifests").Some?
       || Get(image.value, "config").None? || !Get(image.value, "config").value.Obj?
       || Get(image.value, "layers").None? || !Get(image.value, "layers").value.Arr? then
      Err("locked digest does not resolve to an image manifest")
    else if Get(Get(image.value, "config").value, "digest") != Some(Str(configDigest)) then
      Err("manifest.json Config is not the locked image's config")
    else if LayerDigests(Get(image.value, "layers").value.items) != Strings(storedDigests) then
      Err("manifest.json Layers are not the locked image's layers")
    else Ok(())
  }

  lemma BlobFound(env: Env, members: Index, digest: string, data: Bytes)
    ensures BlobIs(env, members, digest, data) <==> Blob(members, digest, env.caps.json, env.hash) == Ok(data)
  {
    hide Digest;
  }

  lemma CheckedImage(env: Env, image: Option<Json>, config: Bytes, layers: seq<Bytes>)
    ensures CheckImage(image, Digest(env.hash, config), Digests(env.hash, layers)).Ok?
       <==> ManifestBinds(env, image, config, layers)
  {
    hide Digest;
  }

  /** The walk succeeds exactly when the locked digest binds what manifest.json handed over. */
  lemma LockCheckedIff(env: Env, members: Index, expected: string, config: Bytes, layers: seq<Bytes>)
    ensures CheckLock(env, members, expected, Digest(env.hash, config), Digests(env.hash, layers)).Ok?
       <==> LockBinds(env, members, expected, config, layers)
  {
    hide Digest, PlatformManifest, BlobIs, Blob, ManifestBinds, CheckImage, Digests, Get;
    forall digest, data
      ensures BlobIs(env, members, digest, data) <==> Blob(members, digest, env.caps.json, env.hash) == Ok(data)
    {
      BlobFound(env, members, digest, data);
    }
    forall image
      ensures CheckImage(image, Digest(env.hash, config), Digests(env.hash, layers)).Ok?
         <==> ManifestBinds(env, image, config, layers)
    {
      CheckedImage(env, image, config, layers);
    }
  }

  lemma LayersOnce(env: Env, contents: Members, members: Index, a: Image, b: Image)
    requires LayersBind(env, contents, members, a) && LayersBind(env, contents, members, b) && a.handed == b.handed
    ensures a.layers == b.layers
  {
    hide Digest, Unpacks, IsZstd;
  }

  /** The part of the check behind the member index. */
  method CheckMembers(env: Env, members: Index, expected: string, zlib: Zlib, ghost contents: Members)
    returns (r: Result<Route>, ghost image: Image)
    requires Contract(zlib, contents)
    ensures r.Ok? ==> AcceptedIn(env, contents, members, expected, r.value, image)
    ensures PrefixFree(contents) && Accurate(zlib, contents) ==>
              (r.Ok? <==> exists route, other :: AcceptedIn(env, contents, members, expected, route, other))
  {
    hide Contract, PrefixFree, Accurate, Digest, CheckLock, LockBinds, Names, LayersBind, LayerOk, Digests;
    image := Image(Handed([], [], []), [], []);
    var read := ReadImage(members, env);
    if read.Err? {
      return Err(read.error), image;
    }
    var handed := read.value;
    HandedLengths(env, members, handed);
    var stored;
    stored, image := CheckLayers(env, members, handed, zlib, contents);
    forall route, other | AcceptedIn(env, contents, members, expected, route, other)
      ensures forall i :: 0 <= i < |handed.names| ==>
                LayerOk(env, contents, members, handed.names[i], handed.ids[i])
    {
      AllLayersOk(env, contents, members, other);
    }
    if stored.Err? {
      return Err(stored.error), image;
    }
    var configDigest := Digest(env.hash, handed.config);
    if expected == configDigest {
      return Ok(ByConfig), image;
    }
    LockCheckedIff(env, members, expected, handed.config, image.layers);
    forall route, other | AcceptedIn(env, contents, members, expected, route, other)
      ensures LockBinds(env, members, expected, handed.config, image.layers)
    {
      LayersOnce(env, contents, members, other, image);
    }
    var lock := CheckLock(env, members, expected, configDigest, stored.value);
    if lock.Err? {
      return Err(lock.error), image;
    }
    r := Ok(ByManifest);
  }

  lemma AllLayersOk(env: Env, contents: Members, members: Index, image: Image)
    requires LayersBind(env, contents, members, image)
    ensures forall i :: 0 <= i < |image.handed.names| ==>
              LayerOk(env, contents, members, image.handed.names[i], image.handed.ids[i])
  {
    hide LayerBinds;
  }

  lemma HandedLengths(env: Env, members: Index, h: Handed)
    requires Names(env, members, h)
    ensures |h.names| == |h.ids|
  {
  }

  lemma IndexOnce(a: Index, b: Index, entries: seq<Entry>)
    requires Indexes(a, entries) && Indexes(b, entries)
    ensures a == b
  {
  }

  /**
   Accepts an archive exactly when every byte it hands to the scanner is bound to the locked digest:
   every layer's content to the configuration, and the configuration, or the manifest naming it and the
   layer files, to the lock.
   */
  method CheckArchive(env: Env, entries: seq<Entry>, expected: string, zlib: Zlib, ghost contents: Members)
    returns (r: Result<Route>, ghost image: Image)
    requires Contract(zlib, contents)
    ensures r.Ok? ==> Accepted(env, contents, entries, expected, r.value, image)
    ensures PrefixFree(contents) && Accurate(zlib, contents) ==>
              (r.Ok? <==> exists route, other :: Accepted(env, contents, entries, expected, route, other))
  {
    hide Contract, PrefixFree, Accurate, IsDigest, Indexes, AcceptedIn;
    image := Image(Handed([], [], []), [], []);
    if !IsDigest(expected) {
      return Err("invalid locked image ID"), image;
    }
    var indexed := IndexMembers(entries, env.caps.members);
    if indexed.Err? {
      if |entries| <= env.caps.members {
        Unindexed(entries);
      }
      return Err(indexed.error), image;
    }
    var members := indexed.value;
    r, image := CheckMembers(env, members, expected, zlib, contents);
    forall other | Indexes(other, entries)
      ensures other == members
    {
      IndexOnce(other, members, entries);
    }
  }

  lemma Unindexed(entries: seq<Entry>)
    requires !((forall i :: 0 <= i < |entries| ==> IsSafeName(entries[i].name) && !entries[i].kind.Other?)
               && forall i, j :: 0 <= i < j < |entries| ==> entries[i].name != entries[j].name)
    ensures forall members :: !Indexes(members, entries)
  {
    hide IsSafeName;
  }
}
