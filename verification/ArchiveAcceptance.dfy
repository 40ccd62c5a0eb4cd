/**
 What it takes for a saved archive to be accepted, read off its entries and the members of its JSON
 documents: the definition of acceptance, and with it the check, agree with this in both directions.
 */
module ArchiveAcceptance {
  import opened Common
  import opened CanonicalJson
  import opened ArchiveStream
  import opened ArchiveIdentity

  // ---- the platform ----

  /** A digest is the algorithm's name and 64 lower-case hexadecimal digits. */
  lemma DigestForm(s: string)
    ensures IsDigest(s) <==>
              |s| == 71 && s[..7] == "sha256:" && forall i :: 7 <= i < 71 ==> s[i] in "0123456789abcdef"
  {
    forall i | 0 <= i < |s|
      ensures IsHex(s[i]) <==> s[i] in "0123456789abcdef"
    {
      HexDigits(s[i]);
    }
    hide IsHex;
  }

  lemma HexDigits(c: char)
    ensures IsHex(c) <==> c in "0123456789abcdef"
  {
  }

  /** The members of an object describe linux on arm64, in the variant v8 or in none. */
  predicate IsLinuxArm64(m: map<string, Json>) {
    && "os" in m && m["os"] == Str("linux")
    && "architecture" in m && m["architecture"] == Str("arm64")
    && ("variant" in m ==> m["variant"] == Null || m["variant"] == Str("v8"))
  }

  /** An entry of a manifest list that is for this platform. */
  predicate IsForPlatform(j: Json) {
    j.Obj? && "platform" in j.members && j.members["platform"].Obj? && IsLinuxArm64(j.members["platform"].members)
  }

  lemma PlatformItemIff(j: Json)
    ensures IsPlatformItem(j) <==> IsForPlatform(j)
    ensures j.Obj? ==> (IsPlatform(j) <==> IsLinuxArm64(j.members))
  {
  }

  /** Entry i is for the platform, and no other is. */
  ghost predicate IsOnly(items: seq<Json>, i: int) {
    0 <= i < |items| && IsForPlatform(items[i]) && forall j :: 0 <= j < |items| && IsForPlatform(items[j]) ==> j == i
  }

  lemma {:induction false} NoMatches(items: seq<Json>)
    ensures PlatformItems(items) == [] <==> forall j :: 0 <= j < |items| ==> !IsForPlatform(items[j])
  {
    hide IsPlatformItem, IsForPlatform;
    if items != [] {
      PlatformItemIff(items[0]);
      NoMatches(items[1..]);
      assert forall j :: 1 <= j < |items| ==> items[j] == items[1..][j - 1];
    }
  }

  lemma OnlyLater(items: seq<Json>, i: int)
    requires 0 < i < |items|
    ensures IsOnly(items, i) <==> !IsForPlatform(items[0]) && IsOnly(items[1..], i - 1)
  {
    hide IsForPlatform;
    var rest := items[1..];
    assert rest[i - 1] == items[i];
    if !IsForPlatform(items[0]) && IsOnly(rest, i - 1) {
      assert forall j :: 1 <= j < |items| ==> items[j] == rest[j - 1];
    }
    if IsOnly(items, i) {
      assert forall j :: 0 <= j < |rest| ==> rest[j] == items[j + 1];
    }
  }

  ghost predicate HasOnly(items: seq<Json>, x: Json) {
    exists i :: IsOnly(items, i) && items[i] == x
  }

  lemma OnlyInRest(items: seq<Json>, x: Json)
    requires items != [] && !IsForPlatform(items[0])
    ensures HasOnly(items, x) <==> HasOnly(items[1..], x)
  {
    hide IsForPlatform;
    var rest := items[1..];
    if HasOnly(rest, x) {
      var i :| IsOnly(rest, i) && rest[i] == x;
      OnlyLater(items, i + 1);
      assert items[i + 1] == x;
    }
    if HasOnly(items, x) {
      var i :| IsOnly(items, i) && items[i] == x;
      OnlyLater(items, i);
      assert rest[i - 1] == x;
    }
  }

  lemma OnlyFirst(items: seq<Json>, x: Json)
    requires items != [] && IsForPlatform(items[0])
    ensures HasOnly(items, x) <==> x == items[0] && forall j :: 0 <= j < |items[1..]| ==> !IsForPlatform(items[1..][j])
  {
    hide IsForPlatform;
    var rest := items[1..];
    if HasOnly(items, x) {
      assert forall j :: 0 <= j < |rest| ==> rest[j] == items[j + 1];
    }
    if x == items[0] && forall j :: 0 <= j < |rest| ==> !IsForPlatform(rest[j]) {
      assert forall j :: 1 <= j < |items| ==> items[j] == rest[j - 1];
      assert IsOnly(items, 0);
    }
  }

  lemma {:induction false} OneMatch(items: seq<Json>, x: Json)
    ensures PlatformItems(items) == [x] <==> HasOnly(items, x)
  {
    hide IsPlatformItem, IsForPlatform, HasOnly;
    if items == [] {
      NothingThere(x);
    } else {
      var rest := items[1..];
      PlatformItemIff(items[0]);
      if IsForPlatform(items[0]) {
        OnlyFirst(items, x);
        NoMatches(rest);
        var first, others := [items[0]], PlatformItems(rest);
        assert PlatformItems(items) == first + others;
        assert first + others == [x] <==> x == items[0] && others == [] by {
          assert (first + others)[0] == items[0] && |first + others| == 1 + |others|;
        }
      } else {
        OnlyInRest(items, x);
        OneMatch(rest, x);
        assert PlatformItems(items) == PlatformItems(rest);
      }
    }
  }

  lemma NothingThere(x: Json)
    ensures !HasOnly([], x)
  {
  }

  /** A manifest list answers a digest exactly when that is the digest of its only entry for the platform. */
  lemma PlatformManifestIff(index: Json, d: string)
    ensures PlatformManifest(index) == Ok(d) <==>
              && index.Obj? && "manifests" in index.members && index.members["manifests"].Arr?
              && IsDigest(d)
              && var items := index.members["manifests"].items;
                 exists i :: IsOnly(items, i) && items[i].Obj? && "digest" in items[i].members
                             && items[i].members["digest"] == Str(d)
  {
    hide IsDigest, IsForPlatform, PlatformItems, IsOnly;
    if index.Obj? && "manifests" in index.members && index.members["manifests"].Arr? {
      var items := index.members["manifests"].items;
      var matches := PlatformItems(items);
      assert forall i :: IsOnly(items, i) ==> 0 <= i < |items| && HasOnly(items, items[i]) by {
        OnlyInside(items);
      }
      forall x
        ensures matches == [x] <==> HasOnly(items, x)
      {
        OneMatch(items, x);
      }
      if |matches| == 1 {
        assert matches == [matches[0]];
        var i :| IsOnly(items, i) && items[i] == matches[0];
        assert forall j :: IsOnly(items, j) ==> matches == [items[j]];
      }
    }
  }

  lemma OnlyInside(items: seq<Json>)
    ensures forall i :: IsOnly(items, i) ==> 0 <= i < |items| && HasOnly(items, items[i])
  {
    hide IsForPlatform;
  }

  // ---- what the entries hold ----

  /** A regular entry of the archive with this name and these bytes. */
  ghost predicate Stored(entries: seq<Entry>, name: string, content: Bytes) {
    Entry(name, File, content) in entries
  }

  lemma StoredIff(members: Index, entries: seq<Entry>, name: string, content: Bytes)
    requires Indexes(members, entries)
    ensures FileIs(members, name, content) <==> Stored(entries, name, content)
  {
    hide IsSafeName;
    if Stored(entries, name, content) {
      var i :| 0 <= i < |entries| && entries[i] == Entry(name, File, content);
      assert entries[i].name in members;
    }
  }

  /** manifest.json is a list of one object, which names a configuration and layer files. */
  ghost predicate Describes(env: Env, entries: seq<Entry>, h: Handed) {
    exists manifest, m: map<string, Json>, configName ::
      && Stored(entries, "manifest.json", manifest) && |manifest| <= env.caps.json
      && env.loads(manifest) == Some(Arr([Obj(m)]))
      && "Config" in m && m["Config"] == Str(configName)
      && Stored(entries, configName, h.config) && |h.config| <= env.caps.json
      && "Layers" in m && m["Layers"] == Arr(h.names)
  }

  /** The configuration is an object for linux on arm64 that lists one digest for each of these layers. */
  predicate IsConfig(j: Json, ids: seq<Json>) {
    && j.Obj? && IsLinuxArm64(j.members)
    && "rootfs" in j.members && j.members["rootfs"].Obj?
    && "diff_ids" in j.members["rootfs"].members && j.members["rootfs"].members["diff_ids"] == Arr(ids)
  }

  lemma ConfigIff(j: Json, ids: seq<Json>)
    ensures IsPlatform(j) && DiffIds(j) == Some(ids) <==> IsConfig(j, ids)
  {
    PlatformItemIff(j);
    hide IsPlatform, IsLinuxArm64;
    PlatformIsObject(j);
  }

  lemma PlatformIsObject(j: Json)
    ensures IsPlatform(j) ==> j.Obj?
  {
  }

  lemma DescribesIff(env: Env, members: Index, entries: seq<Entry>, h: Handed)
    requires Indexes(members, entries)
    ensures Names(env, members, h) <==>
              && Describes(env, entries, h) && |h.names| == |h.ids|
              && env.loads(h.config).Some? && IsConfig(env.loads(h.config).value, h.ids)
  {
    forall name, content
      ensures FileIs(members, name, content) <==> Stored(entries, name, content)
    {
      StoredIff(members, entries, name, content);
    }
    forall j
      ensures IsPlatform(j) && DiffIds(j) == Some(h.ids) <==> IsConfig(j, h.ids)
    {
      ConfigIff(j, h.ids);
    }
    hide Indexes, FileIs, Stored, IsPlatform, DiffIds, IsConfig;
    if Names(env, members, h) {
      var manifest: Bytes, image: Json, configName: string :|
        && FileIs(members, "manifest.json", manifest) && |manifest| <= env.caps.json
        && env.loads(manifest) == Some(Arr([image]))
        && Get(image, "Config") == Some(Str(configName)) && FileIs(members, configName, h.config)
        && Get(image, "Layers") == Some(Arr(h.names));
      assert image == Obj(image.members);
    }
    if Describes(env, entries, h) {
      var manifest, m: map<string, Json>, configName :|
        && Stored(entries, "manifest.json", manifest) && |manifest| <= env.caps.json
        && env.loads(manifest) == Some(Arr([Obj(m)]))
        && "Config" in m && m["Config"] == Str(configName)
        && Stored(entries, configName, h.config) && |h.config| <= env.caps.json
        && "Layers" in m && m["Layers"] == Arr(h.names);
      assert Get(Obj(m), "Config") == Some(Str(configName)) && Get(Obj(m), "Layers") == Some(Arr(h.names));
    }
  }

  /** This stored file is a layer: not zstd, gzip by its first bytes or plain, with the listed digest. */
  ghost predicate IsLayer(env: Env, contents: Members, entries: seq<Entry>, name: Json, id: Json, file: Bytes,
                          plain: Bytes) {
    var zstd: Bytes, gzip: Bytes := [0x28, 0xB5, 0x2F, 0xFD], [0x1F, 0x8B];
    && name.Str? && Stored(entries, name.s, file)
    && !(zstd <= file) && (if gzip <= file then Gunzips(contents, file, plain) else plain == file)
    && |plain| <= env.caps.layer && id == Str("sha256:" + env.hash(plain))
  }

  lemma LayerIff(env: Env, contents: Members, members: Index, entries: seq<Entry>, name: Json, id: Json, file: Bytes,
                 plain: Bytes)
    requires Indexes(members, entries)
    ensures LayerBinds(env, contents, members, name, id, file, plain)
       <==> IsLayer(env, contents, entries, name, id, file, plain)
  {
    if name.Str? {
      StoredIff(members, entries, name.s, file);
    }
    hide Indexes, FileIs, Stored, Gunzips;
    var zstd: Bytes, gzip: Bytes := [0x28, 0xB5, 0x2F, 0xFD], [0x1F, 0x8B];
    assert IsZstd(file) <==> zstd <= file;
    assert IsGzip(file) <==> gzip <= file;
  }

  /** An image manifest that names this configuration and these layer files by their digests, in order. */
  ghost predicate IsManifest(env: Env, j: Option<Json>, config: Bytes, layers: seq<Bytes>) {
    && j.Some? && j.value.Obj?
    && var m := j.value.members;
       && "manifests" !in m
       && "config" in m && m["config"].Obj?
       && "digest" in m["config"].members && m["config"].members["digest"] == Str("sha256:" + env.hash(config))
       && "layers" in m && m["layers"].Arr? && |m["layers"].items| == |layers|
       && forall i :: 0 <= i < |layers| ==> HasDigest(m["layers"].items[i], "sha256:" + env.hash(layers[i]))
  }

  predicate HasDigest(j: Json, d: string) {
    j.Obj? && "digest" in j.members && j.members["digest"] == Str(d)
  }

  lemma ManifestIff(env: Env, j: Option<Json>, config: Bytes, layers: seq<Bytes>)
    ensures ManifestBinds(env, j, config, layers) <==> IsManifest(env, j, config, layers)
  {
    if j.Some? && j.value.Obj? && "layers" in j.value.members && j.value.members["layers"].Arr? {
      DigestsIff(env, j.value.members["layers"].items, layers);
    }
    hide HasDigest, LayerDigests, Strings, Digests;
  }

  lemma DigestsIff(env: Env, items: seq<Json>, layers: seq<Bytes>)
    ensures LayerDigests(items) == Strings(Digests(env.hash, layers)) <==>
              && |items| == |layers|
              && forall i :: 0 <= i < |layers| ==> HasDigest(items[i], "sha256:" + env.hash(layers[i]))
  {
    var a, b := LayerDigests(items), Strings(Digests(env.hash, layers));
    hide LayerDigests, Strings, Digests;
    forall i | 0 <= i < |items| && |items| == |layers|
      ensures a[i] == b[i] <==> HasDigest(items[i], "sha256:" + env.hash(layers[i]))
    {
    }
    hide HasDigest;
    if |items| == |layers| && forall i :: 0 <= i < |layers| ==> HasDigest(items[i], "sha256:" + env.hash(layers[i])) {
      assert a == b;
    }
  }

  /** The blob stored under a digest, and it has that digest. */
  ghost predicate IsBlob(env: Env, entries: seq<Entry>, d: string, data: Bytes)
    requires IsDigest(d)
  {
    Stored(entries, "blobs/sha256/" + d[7..], data) && |data| <= env.caps.json && d == "sha256:" + env.hash(data)
  }

  lemma BlobIff(env: Env, members: Index, entries: seq<Entry>, d: string, data: Bytes)
    requires Indexes(members, entries) && IsDigest(d)
    ensures BlobIs(env, members, d, data) <==> IsBlob(env, entries, d, data)
  {
    BlobPath(d);
    StoredIff(members, entries, BlobName(d), data);
    hide FileIs, Stored, Indexes, BlobName;
  }

  lemma BlobPath(d: string)
    requires IsDigest(d)
    ensures BlobName(d) == "blobs/sha256/" + d[7..]
  {
    assert d[6] == d[..7][6] == ':';
    assert d[..6] == d[..7][..6] == "sha256";
    assert "blobs/" + ("sha256" + "/" + d[7..]) == "blobs/sha256/" + d[7..];
  }

  /** Hashed blobs lead from the locked digest to an image manifest, over a manifest list or not. */
  ghost predicate Leads(env: Env, entries: seq<Entry>, expected: string, config: Bytes, layers: seq<Bytes>)
    requires IsDigest(expected)
  {
    exists top :: IsBlob(env, entries, expected, top)
                  && (IsManifest(env, env.loads(top), config, layers)
                      || LeadsOver(env, entries, env.loads(top), config, layers))
  }

  ghost predicate LeadsOver(env: Env, entries: seq<Entry>, list: Option<Json>, config: Bytes, layers: seq<Bytes>) {
    && list.Some?
    && exists d, blob :: && IsDigest(d) && PlatformManifest(list.value) == Ok(d) && IsBlob(env, entries, d, blob)
                         && IsManifest(env, env.loads(blob), config, layers)
  }

  lemma LeadsIff(env: Env, members: Index, entries: seq<Entry>, expected: string, config: Bytes, layers: seq<Bytes>)
    requires Indexes(members, entries) && IsDigest(expected)
    ensures LockBinds(env, members, expected, config, layers) <==> Leads(env, entries, expected, config, layers)
  {
    forall j
      ensures LockedBlob(env, members, j, config, layers)
         <==> IsManifest(env, j, config, layers) || LeadsOver(env, entries, j, config, layers)
    {
      LockedIff(env, members, entries, j, config, layers);
    }
    forall top
      ensures BlobIs(env, members, expected, top) <==> IsBlob(env, entries, expected, top)
    {
      BlobIff(env, members, entries, expected, top);
    }
    hide Indexes, LockedBlob, IsManifest, LeadsOver, BlobIs, IsBlob, IsDigest;
  }

  lemma LockedIff(env: Env, members: Index, entries: seq<Entry>, j: Option<Json>, config: Bytes, layers: seq<Bytes>)
    requires Indexes(members, entries)
    ensures LockedBlob(env, members, j, config, layers)
       <==> IsManifest(env, j, config, layers) || LeadsOver(env, entries, j, config, layers)
  {
    forall i
      ensures ManifestBinds(env, i, config, layers) <==> IsManifest(env, i, config, layers)
    {
      ManifestIff(env, i, config, layers);
    }
    forall d, blob | IsDigest(d)
      ensures BlobIs(env, members, d, blob) <==> IsBlob(env, entries, d, blob)
    {
      BlobIff(env, members, entries, d, blob);
    }
    ListForm(j, config, layers, env);
    hide Indexes, ManifestBinds, IsManifest, BlobIs, IsBlob, IsDigest, PlatformManifest;
  }

  lemma ListForm(j: Option<Json>, config: Bytes, layers: seq<Bytes>, env: Env)
    ensures j.Some? && PlatformManifest(j.value).Ok? ==>
              IsDigest(PlatformManifest(j.value).value) && j.value.Obj? && Get(j.value, "manifests").Some?
    ensures IsManifest(env, j, config, layers) ==> j.Some? && j.value.Obj? && Get(j.value, "manifests") == None
  {
    hide IsDigest, PlatformItems;
  }

  // ---- acceptance ----

  /** Few enough entries, regular files and directories under safe names, none of them twice. */
  ghost predicate IsTidy(entries: seq<Entry>, cap: nat) {
    && |entries| <= cap
    && (forall i :: 0 <= i < |entries| ==> IsSafeName(entries[i].name) && !entries[i].kind.Other?)
    && forall i, j :: 0 <= i < j < |entries| ==> entries[i].name != entries[j].name
  }

  lemma {:induction false} IndexExists(entries: seq<Entry>) returns (members: Index)
    requires IsTidy(entries, |entries|)
    ensures Indexes(members, entries)
  {
    hide IsSafeName;
    if entries == [] {
      members := map[];
    } else {
      var n := |entries| - 1;
      var before := IndexExists(entries[..n]);
      members := before[entries[n].name := entries[n]];
    }
  }

  lemma TidyIff(entries: seq<Entry>)
    ensures (exists members :: Indexes(members, entries)) <==> IsTidy(entries, |entries|)
  {
    if IsTidy(entries, |entries|) {
      var members := IndexExists(entries);
    }
    hide IsSafeName;
  }

  /** One layer for each listed digest, each with its digest. */
  ghost predicate LayersFit(env: Env, contents: Members, entries: seq<Entry>, image: Image) {
    && |image.layers| == |image.plains| == |image.handed.names| == |image.handed.ids|
    && forall i :: 0 <= i < |image.layers| ==>
         IsLayer(env, contents, entries, image.handed.names[i], image.handed.ids[i], image.layers[i], image.plains[i])
  }

  /** What a route stands for: the lock is the configuration's digest, or leads to a manifest that names it. */
  ghost predicate RouteFits(env: Env, entries: seq<Entry>, expected: string, route: Route, image: Image)
    requires IsDigest(expected)
  {
    if expected == "sha256:" + env.hash(image.handed.config) then route == ByConfig
    else route == ByManifest && Leads(env, entries, expected, image.handed.config, image.layers)
  }

  /**
   An archive is accepted with an image exactly when its entries are tidy, manifest.json describes the
   image, its configuration is for linux on arm64 and lists the digests of the layers' contents, and the
   lock is the configuration's digest or leads to a manifest with the digests of configuration and layers.
   */
  lemma AcceptedIff(env: Env, contents: Members, entries: seq<Entry>, expected: string, route: Route, image: Image)
    ensures Accepted(env, contents, entries, expected, route, image) <==>
              && IsDigest(expected) && IsTidy(entries, env.caps.members)
              && Describes(env, entries, image.handed)
              && env.loads(image.handed.config).Some?
              && IsConfig(env.loads(image.handed.config).value, image.handed.ids)
              && LayersFit(env, contents, entries, image)
              && RouteFits(env, entries, expected, route, image)
  {
    TidyIff(entries);
    forall members | Indexes(members, entries) && IsDigest(expected)
      ensures AcceptedIn(env, contents, members, expected, route, image) <==>
                && Describes(env, entries, image.handed)
                && env.loads(image.handed.config).Some?
                && IsConfig(env.loads(image.handed.config).value, image.handed.ids)
                && LayersFit(env, contents, entries, image)
                && RouteFits(env, entries, expected, route, image)
    {
      AcceptedInIff(env, contents, members, entries, expected, route, image);
    }
    hide IsDigest, Describes, IsConfig, LayersFit, RouteFits, AcceptedIn, Indexes, IsSafeName;
  }

  lemma AcceptedInIff(env: Env, contents: Members, members: Index, entries: seq<Entry>, expected: string,
                      route: Route, image: Image)
    requires Indexes(members, entries) && IsDigest(expected)
    ensures AcceptedIn(env, contents, members, expected, route, image) <==>
              && Describes(env, entries, image.handed)
              && env.loads(image.handed.config).Some?
              && IsConfig(env.loads(image.handed.config).value, image.handed.ids)
              && LayersFit(env, contents, entries, image)
              && RouteFits(env, entries, expected, route, image)
  {
    DescribesIff(env, members, entries, image.handed);
    LayersIff(env, contents, members, entries, image);
    LeadsIff(env, members, entries, expected, image.handed.config, image.layers);
    hide Indexes, IsDigest, Names, Describes, IsConfig, LayersBind, LockBinds, Leads;
  }

  lemma LayersIff(env: Env, contents: Members, members: Index, entries: seq<Entry>, image: Image)
    requires Indexes(members, entries)
    ensures LayersBind(env, contents, members, image) <==> LayersFit(env, contents, entries, image)
  {
    forall name, id, file, plain
      ensures LayerBinds(env, contents, members, name, id, file, plain)
         <==> IsLayer(env, contents, entries, name, id, file, plain)
    {
      LayerIff(env, contents, members, entries, name, id, file, plain);
    }
    hide Indexes, LayerBinds, IsLayer;
  }
}
