/** The manifest of bundled images: what is checked of the whole, and of each PNG in it. */
module AssetManifests {
  import opened Octets
  import opened Options
  import opened Png

  type Text = string

  datatype Asset = Asset(
    id: Text, role: Text, mediaType: Text, loading: Text, size: int, algorithm: Text, digest: seq<Octet>,
    width: int, height: int, data: seq<Octet>)

  datatype Manifest = Manifest(version: int, assets: seq<Asset>)

  /** The checksum and the digest are those of the standard libraries. */
  datatype Sums = Sums(crc: Checksum, sha256: seq<Octet> -> seq<Octet>)

  predicate IdPattern(id: Text) {
    && 1 <= |id| <= 64
    && 'a' <= id[0] <= 'z'
    && forall i | 1 <= i < |id| :: 'a' <= id[i] <= 'z' || '0' <= id[i] <= '9' || id[i] == '-'
  }

  predicate KnownRole(role: Text) { role == "avatar" || role == "header" || role == "image" }

  /** The most octets, width, height and pixels an image may have in its role. */
  datatype Most = Most(octets: int, width: int, height: int, pixels: int)

  function MostOf(role: Text): Most {
    if role == "avatar" then Most(32768, 512, 512, 262144)
    else if role == "image" then Most(196608, 2400, 2400, 2000000)
    else Most(196608, 2400, 1200, 2000000)
  }

  /** The image is a PNG of the grammar with exactly the stated dimensions, within its role's limits. */
  ghost predicate GoodImage(a: Asset, crc: Checksum) {
    exists cs: seq<Chunk> ::
      && IsPng(a.data, cs, crc)
      && |cs[0].body| >= 13 && a.width == Width(cs[0].body) && a.height == Height(cs[0].body)
      && a.width <= MostOf(a.role).width && a.height <= MostOf(a.role).height && a.width * a.height <= MostOf(a.role).pixels
  }

  ghost predicate GoodAsset(a: Asset, s: Sums) {
    && IdPattern(a.id) && KnownRole(a.role) && a.mediaType == "image/png" && a.loading == "bundled"
    && a.size == |a.data| && 1 <= a.size <= MostOf(a.role).octets
    && a.algorithm == "sha-256" && |a.digest| == 32 && a.digest == s.sha256(a.data)
    && GoodImage(a, s.crc)
  }

  /** Every asset is good, no id occurs twice, and neither does the avatar's or the header's role. */
  ghost predicate GoodManifest(m: Manifest, s: Sums) {
    && m.version == 1 && 1 <= |m.assets| <= 8
    && (forall i | 0 <= i < |m.assets| :: GoodAsset(m.assets[i], s))
    && (forall i, j | 0 <= i < j < |m.assets| :: m.assets[i].id != m.assets[j].id)
    && (forall i, j | 0 <= i < j < |m.assets| && m.assets[i].role != "image" :: m.assets[i].role != m.assets[j].role)
  }

  lemma ImageByDimensions(a: Asset, crc: Checksum, r: Option<(nat, nat)>)
    requires r.Some? <==> exists cs: seq<Chunk> :: IsPng(a.data, cs, crc)
    requires forall cs: seq<Chunk> | IsPng(a.data, cs, crc) :: r == Some((Width(cs[0].body), Height(cs[0].body)))
    ensures GoodImage(a, crc) <==>
              && r.Some? && a.width == r.value.0 && a.height == r.value.1
              && a.width <= MostOf(a.role).width && a.height <= MostOf(a.role).height && a.width * a.height <= MostOf(a.role).pixels
  {
    hide MostOf, Width, Height;
    if r.Some? {
      var cs: seq<Chunk> :| IsPng(a.data, cs, crc);
      assert |cs[0].body| >= 13;
    }
  }

  method CheckAsset(a: Asset, s: Sums) returns (ok: bool)
    ensures ok <==> GoodAsset(a, s)
  {
    hide GoodImage, IdPattern, IsPng, Width, Height;
    if !IdPattern(a.id) || !KnownRole(a.role) { return false; }
    if a.mediaType != "image/png" || a.loading != "bundled" { return false; }
    var most := MostOf(a.role);
    if a.size != |a.data| || a.size < 1 || a.size > most.octets || a.algorithm != "sha-256" || |a.digest| != 32 { return false; }
    if s.sha256(a.data) != a.digest { return false; }
    var dimensions := PngDimensions(a.data, s.crc);
    ImageByDimensions(a, s.crc, dimensions);
    if dimensions.None? { return false; }
    var (width, height) := dimensions.value;
    return a.width == width && a.height == height && width <= most.width && height <= most.height && width * height <= most.pixels;
  }

  /** The loop over the assets, with the ids and roles seen so far. */
  method ValidateAssetManifest(m: Option<Manifest>, s: Sums) returns (ok: bool)
    ensures ok <==> m.Some? && GoodManifest(m.value, s)
  {
    hide GoodAsset;
    if m.None? || m.value.version != 1 || |m.value.assets| < 1 || |m.value.assets| > 8 { return false; }
    var assets := m.value.assets;
    var ids: set<Text>, roles: set<Text> := {}, {};
    for index := 0 to |assets|
      invariant forall i | 0 <= i < index :: GoodAsset(assets[i], s)
      invariant forall i, j | 0 <= i < j < index :: assets[i].id != assets[j].id
      invariant forall i, j | 0 <= i < j < index && assets[i].role != "image" :: assets[i].role != assets[j].role
      invariant forall id :: id in ids <==> exists i :: 0 <= i < index && assets[i].id == id
      invariant forall role :: role in roles <==> exists i :: 0 <= i < index && assets[i].role == role
    {
      var asset := assets[index];
      if asset.id in ids { return false; }
      if asset.role != "image" && asset.role in roles { return false; }
      ids, roles := ids + {asset.id}, roles + {asset.role};
      var good := CheckAsset(asset, s);
      if !good { return false; }
    }
    return true;
  }
}
