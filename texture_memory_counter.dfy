/**
 * TextureMemoryCounter from egg-palettize: an estimate of the texture
 * memory a palettization needs.  Placements are added one at a time; each
 * palette image is counted once, each texture once (a texture seen again
 * counts its smaller size as duplicate bytes), and the byte estimate of an
 * image follows from its size, its format and whether it is mipmapped.
 */
module TextureMemoryCounterModel {
  import opened Wrappers

  /** The egg texture formats the estimate names; every other format is Other. */
  datatype Format =
    | Rgba12
    | Rgba | Rgbm | Rgba8
    | Rgb | Rgb12
    | Rgba4 | Rgba5 | Rgb8 | Rgb5 | LuminanceAlpha | LuminanceAlphamask
    | Rgb332 | Red | Green | Blue | Alpha | Luminance
    | Other

  /** The egg texture filter types. */
  datatype FilterType =
    | Unspecified | Nearest | Linear
    | NearestMipmapNearest | LinearMipmapNearest | NearestMipmapLinear | LinearMipmapLinear

  /** An image file (a palette image or a texture's destination image) as the estimate sees it. */
  datatype ImageFile = ImageFile(id: nat, format: Format, magfilter: FilterType, numChannels: nat,
                                 xSize: nat, ySize: nat, utilization: real)

  /**
   * A texture placement: the texture it places (None for a missing one),
   * whether it was omitted from the palettes, the palette image it sits on
   * and its placed size there, and the destination image used when it is
   * omitted.
   */
  datatype Placement = Placement(texture: Option<nat>, omitted: bool, image: Option<ImageFile>,
                                 placedXSize: nat, placedYSize: nat, dest: Option<ImageFile>)

  /** Bytes per pixel guessed from the format; a format not in the table uses the channel count. */
  function BytesPerPixel(format: Format, numChannels: nat): (bpp: nat)
    ensures format == Rgba12 ==> bpp == 6
    ensures format in {Rgba, Rgbm, Rgba8} ==> bpp == 4
    ensures format in {Rgb, Rgb12} ==> bpp == 3
    ensures format in {Rgba4, Rgba5, Rgb8, Rgb5, LuminanceAlpha, LuminanceAlphamask} ==> bpp == 2
    ensures format in {Rgb332, Red, Green, Blue, Alpha, Luminance} ==> bpp == 1
    ensures format == Other ==> bpp == numChannels
  {
    match format
    case Rgba12 => 6
    case Rgba | Rgbm | Rgba8 => 4
    case Rgb | Rgb12 => 3
    case Rgba4 | Rgba5 | Rgb8 | Rgb5 | LuminanceAlpha | LuminanceAlphamask => 2
    case Rgb332 | Red | Green | Blue | Alpha | Luminance => 1
    case Other => numChannels
  }

  predicate IsMipmap(f: FilterType)
  {
    f in {NearestMipmapNearest, LinearMipmapNearest, NearestMipmapLinear, LinearMipmapLinear}
  }

  /** count_bytes(image, x, y): pixels times bytes per pixel, a third more (rounded down) when mipmapped. */
  function CountBytes(image: ImageFile, x: nat, y: nat): nat
  {
    var bytes := x * y * BytesPerPixel(image.format, image.numChannels);
    if IsMipmap(image.magfilter) then (bytes * 4) / 3 else bytes
  }

  /**
   * The estimate is the plain pixel bytes for a filter without mipmaps;
   * with mipmaps it is the largest whole number at most four thirds of them.
   */
  lemma CountBytesBounds(image: ImageFile, x: nat, y: nat)
    ensures var plain := x * y * BytesPerPixel(image.format, image.numChannels);
      var r := CountBytes(image, x, y);
      (!IsMipmap(image.magfilter) ==> r == plain) &&
      (IsMipmap(image.magfilter) ==> plain <= r && 3 * r <= 4 * plain < 3 * r + 3)
  {
  }

  /** count_bytes(image): the image at its own size. */
  function ImageBytes(image: ImageFile): nat
  {
    CountBytes(image, image.xSize, image.ySize)
  }

  /** A double cast to int: the whole part, truncated toward zero. */
  function TruncToInt(x: real): int
  {
    if x >= 0.0 then x.Floor else -((-x).Floor)
  }

  /** The cast keeps the whole part: it moves the value toward zero by less than one. */
  lemma TruncToIntBounds(x: real)
    ensures x >= 0.0 ==> TruncToInt(x) as real <= x < TruncToInt(x) as real + 1.0
    ensures x < 0.0 ==> TruncToInt(x) as real - 1.0 < x <= TruncToInt(x) as real
  {
  }

  /** The share of a palette image left unused. */
  function Wasted(image: ImageFile): real
  {
    1.0 - image.utilization
  }

  /** (int)(wasted * bytes). */
  function Share(wasted: real, b: nat): int
  {
    TruncToInt(wasted * b as real)
  }

  /** The unused share of a palette image's bytes: the wasted share times the bytes, truncated. */
  function UnusedBytes(image: ImageFile): int
  {
    Share(Wasted(image), ImageBytes(image))
  }

  /** The sum of a map's values. */
  ghost function Total(m: map<nat, int>): int
    decreases |m|
  {
    if m == map[] then 0
    else
      var k :| k in m;
      m[k] + Total(m - {k})
  }

  /** Any key may be taken out first: the sum is its value plus the sum of the rest. */
  lemma {:induction false} TotalRemove(m: map<nat, int>, k: nat)
    requires k in m
    ensures Total(m) == m[k] + Total(m - {k})
    decreases |m|
  {
    var j :| j in m && Total(m) == m[j] + Total(m - {j});
    if j != k {
      assert m - {j} - {k} == m - {k} - {j};
      assert |m - {j}| < |m| && |m - {k}| < |m|;
      TotalRemove(m - {j}, k);
      TotalRemove(m - {k}, j);
    }
  }

  /** Setting key k to v changes the sum by v less k's old value (0 when absent). */
  lemma TotalUpdate(m: map<nat, int>, k: nat, v: int)
    ensures Total(m[k := v]) == Total(m) - (if k in m then m[k] else 0) + v
  {
    var m' := m[k := v];
    TotalRemove(m', k);
    if k in m {
      TotalRemove(m, k);
      assert m' - {k} == m - {k};
    } else {
      assert m' - {k} == m;
    }
  }

  /** The counter's state: the counts, the byte totals, the texture sizes and the palette images seen. */
  datatype Counts = Counts(numTextures: int, numUnplaced: int, numPlaced: int, numPalettes: int,
                           bytes: int, unusedBytes: int, duplicateBytes: int,
                           textures: map<nat, int>, palettes: set<nat>)

  /** The state after reset. */
  const Empty := Counts(0, 0, 0, 0, 0, 0, 0, map[], {})

  /** The counts of textures and palettes are the sizes of the map and the set, and byte counts are not negative. */
  predicate CountsValid(c: Counts)
  {
    c.numTextures == |c.textures| && c.numPalettes == |c.palettes| && c.duplicateBytes >= 0 &&
    forall t :: t in c.textures ==> c.textures[t] >= 0
  }

  /** add_palette on a state: a palette image not seen before adds its bytes, its unused share and one palette. */
  function AddPaletteTo(c: Counts, image: ImageFile): (r: Counts)
    ensures image.id in r.palettes
  {
    if image.id in c.palettes then c
    else c.(palettes := c.palettes + {image.id}, bytes := c.bytes + ImageBytes(image),
            unusedBytes := c.unusedBytes + UnusedBytes(image), numPalettes := c.numPalettes + 1)
  }

  /** add_texture on a state: a new texture is stored and counted; a repeat counts the smaller size as duplicate and keeps the larger. */
  function AddTextureTo(c: Counts, texture: nat, b: nat): (r: Counts)
    ensures texture in r.textures
  {
    if texture !in c.textures then c.(textures := c.textures[texture := b], numTextures := c.numTextures + 1)
    else
      var stored := c.textures[texture];
      c.(duplicateBytes := c.duplicateBytes + (if b < stored then b else stored),
         textures := c.textures[texture := if b > stored then b else stored])
  }

  /** add_placement on a state; a missing texture, palette image or destination image changes nothing. */
  function AddPlacementTo(c: Counts, p: Placement): Counts
  {
    if p.texture.None? then c
    else if !p.omitted then
      if p.image.None? then c
      else
        var c1 := AddPaletteTo(c, p.image.value);
        var c2 := AddTextureTo(c1, p.texture.value, CountBytes(p.image.value, p.placedXSize, p.placedYSize));
        c2.(numPlaced := c2.numPlaced + 1)
    else if p.dest.None? then c
    else
      var b := ImageBytes(p.dest.value);
      var c1 := AddTextureTo(c, p.texture.value, b);
      c1.(bytes := c1.bytes + b, numUnplaced := c1.numUnplaced + 1)
  }

  /** The reset state is valid. */
  lemma EmptyValid()
    ensures CountsValid(Empty) && Empty.textures == map[] && Empty.palettes == {}
  {
  }

  /**
   * Adding a palette image twice is the same as adding it once; the first
   * time adds exactly its bytes and its unused share and counts one more
   * palette, and nothing but palettes and bytes changes.
   */
  lemma AddPaletteIdempotent(c: Counts, image: ImageFile)
    requires CountsValid(c)
    ensures AddPaletteTo(AddPaletteTo(c, image), image) == AddPaletteTo(c, image)
    ensures CountsValid(AddPaletteTo(c, image))
    ensures var r := AddPaletteTo(c, image);
      r.textures == c.textures && r.duplicateBytes == c.duplicateBytes &&
      (image.id in c.palettes ==> r == c) &&
      (image.id !in c.palettes ==>
        r.bytes == c.bytes + ImageBytes(image) && r.unusedBytes == c.unusedBytes + UnusedBytes(image) &&
        r.numPalettes == c.numPalettes + 1 && r.palettes == c.palettes + {image.id})
  {
  }

  /**
   * add_texture keeps the state valid; every byte given to it ends up
   * either in the stored size of its texture or in the duplicate bytes;
   * the stored size never shrinks; and a repeat adds the smaller size to
   * the duplicates while a new texture adds one to the count.
   */
  lemma AddTextureAccounts(c: Counts, texture: nat, b: nat)
    requires CountsValid(c)
    ensures var r := AddTextureTo(c, texture, b);
      CountsValid(r) &&
      r.duplicateBytes + Total(r.textures) == c.duplicateBytes + Total(c.textures) + b &&
      r.textures[texture] >= b && (texture in c.textures ==> r.textures[texture] >= c.textures[texture]) &&
      (texture !in c.textures ==> r.numTextures == c.numTextures + 1 && r.duplicateBytes == c.duplicateBytes) &&
      (texture in c.textures ==>
        r.numTextures == c.numTextures &&
        r.duplicateBytes - c.duplicateBytes == (if b < c.textures[texture] then b else c.textures[texture])) &&
      (forall t :: t != texture ==> (t in r.textures <==> t in c.textures)) &&
      r.bytes == c.bytes && r.palettes == c.palettes
  {
    var r := AddTextureTo(c, texture, b);
    if texture in c.textures {
      TotalUpdate(c.textures, texture, r.textures[texture]);
      assert r.textures.Keys == c.textures.Keys;
    } else {
      TotalUpdate(c.textures, texture, b);
      assert r.textures.Keys == c.textures.Keys + {texture};
    }
  }

  /**
   * A placed placement counts one more placed texture and adds to the
   * bytes only what its palette image adds; an omitted one counts one more
   * unplaced texture and adds its destination image's bytes.  Both keep the
   * state valid.
   */
  lemma PlacementBytes(c: Counts, p: Placement)
    requires CountsValid(c) && p.texture.Some?
    ensures CountsValid(AddPlacementTo(c, p))
    ensures !p.omitted && p.image.Some? ==>
      var r := AddPlacementTo(c, p);
      r.numPlaced == c.numPlaced + 1 && r.numUnplaced == c.numUnplaced &&
      r.bytes == AddPaletteTo(c, p.image.value).bytes
    ensures p.omitted && p.dest.Some? ==>
      var r := AddPlacementTo(c, p);
      r.numUnplaced == c.numUnplaced + 1 && r.numPlaced == c.numPlaced &&
      r.bytes == c.bytes + ImageBytes(p.dest.value) && r.palettes == c.palettes
  {
    if !p.omitted && p.image.Some? {
      var c1 := AddPaletteTo(c, p.image.value);
      AddPaletteIdempotent(c, p.image.value);
      AddTextureAccounts(c1, p.texture.value, CountBytes(p.image.value, p.placedXSize, p.placedYSize));
    } else if p.omitted && p.dest.Some? {
      AddTextureAccounts(c, p.texture.value, ImageBytes(p.dest.value));
    }
  }

  class TextureMemoryCounter {
    var numTextures: int
    var numUnplaced: int
    var numPlaced: int
    var numPalettes: int
    var bytes: int
    var unusedBytes: int
    var duplicateBytes: int
    var textures: map<nat, int>
    var palettes: set<nat>

    function Snapshot(): Counts
      reads this
    {
      Counts(numTextures, numUnplaced, numPlaced, numPalettes, bytes, unusedBytes, duplicateBytes, textures, palettes)
    }

    ghost predicate Valid()
      reads this
    {
      CountsValid(Snapshot())
    }

    /** The constructor: a counter reset to zero. */
    constructor ()
      ensures Snapshot() == Empty && Valid()
    {
      numTextures, numUnplaced, numPlaced, numPalettes := 0, 0, 0, 0;
      bytes, unusedBytes, duplicateBytes := 0, 0, 0;
      textures, palettes := map[], {};
    }

    /** reset: every count and total back to zero, no textures and no palettes. */
    method Reset()
      modifies this
      ensures Snapshot() == Empty && Valid()
    {
      numTextures := 0;
      numUnplaced := 0;
      numPlaced := 0;
      numPalettes := 0;
      bytes := 0;
      unusedBytes := 0;
      duplicateBytes := 0;
      textures := map[];
      palettes := {};
    }

    /** add_placement. */
    method AddPlacement(p: Placement)
      requires Valid()
      modifies this
      ensures Snapshot() == AddPlacementTo(old(Snapshot()), p) && Valid()
    {
      if p.texture.None? {
        return;
      }
      PlacementBytes(Snapshot(), p);
      var texture := p.texture.value;
      if !p.omitted {
        if p.image.None? {
          return;
        }
        var image := p.image.value;
        AddPalette(image);
        var b := CountBytes(image, p.placedXSize, p.placedYSize);
        AddTexture(texture, b);
        numPlaced := numPlaced + 1;
      } else {
        if p.dest.None? {
          return;
        }
        var b := ImageBytes(p.dest.value);
        AddTexture(texture, b);
        bytes := bytes + b;
        numUnplaced := numUnplaced + 1;
      }
    }

    /** add_palette: the first time a palette image is seen, count it and its bytes; later, do nothing. */
    method AddPalette(image: ImageFile)
      requires Valid()
      modifies this
      ensures Snapshot() == AddPaletteTo(old(Snapshot()), image) && Valid()
    {
      AddPaletteIdempotent(Snapshot(), image);
      if image.id in palettes {
        return;
      }
      palettes := palettes + {image.id};
      var b := ImageBytes(image);
      var wasted := Wasted(image);
      bytes := bytes + b;
      unusedBytes := unusedBytes + Share(wasted, b);
      numPalettes := numPalettes + 1;
    }

    /** add_texture: store a new texture's size; for a repeat, count the smaller size as duplicate and keep the larger. */
    method AddTexture(texture: nat, b: nat)
      requires Valid()
      modifies this
      ensures Snapshot() == AddTextureTo(old(Snapshot()), texture, b) && Valid()
    {
      AddTextureAccounts(Snapshot(), texture, b);
      if texture !in textures {
        textures := textures[texture := b];
        numTextures := numTextures + 1;
        return;
      }
      var stored := textures[texture];
      duplicateBytes := duplicateBytes + (if b < stored then b else stored);
      textures := textures[texture := if b > stored then b else stored];
    }
  }
}
