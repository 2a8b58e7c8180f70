/**
 * The movie half of tripleplay's BinaryFlumpLoader: the records read from a Flump library.bin
 * are turned into movie symbols, layer by layer and keyframe by keyframe. Each decoded keyframe
 * gains an `index`, the frame it starts on, which is the previous keyframe's index plus its
 * duration, in Java's wrapping 32-bit int arithmetic.
 */
module FlumpLoader {
  import opened Wrappers

  const TwoTo32: int := 0x1_0000_0000
  const MinInt: int := -0x8000_0000
  const MaxInt: int := 0x7fff_ffff

  /** A Java `int`. */
  type Int32 = x: int | -0x8000_0000 <= x <= 0x7fff_ffff

  /** The Java `int` congruent to `x` modulo 2^32: what a 32-bit computation of `x` yields. */
  function Wrap32(x: int): (r: Int32)
    ensures (r - x) % TwoTo32 == 0
    ensures MinInt <= x <= MaxInt ==> r == x
  {
    var t := x % TwoTo32;
    if t > MaxInt then t - TwoTo32 else t
  }

  /** Java's `a + b` on ints. */
  function Add32(a: Int32, b: Int32): Int32 {
    Wrap32(a + b)
  }

  /** A Java `float`, carried by its bit pattern; nothing here computes with one. */
  datatype Float = Float(bits: bv32)

  datatype Point = Point(x: Float, y: Float)

  /** LibraryData.KeyframeData: one keyframe as read from library.bin. A null string is `None`. */
  datatype KeyframeRecord = KeyframeRecord(
    duration: Int32, frameLabel: Option<string>,  // label
    loc: Point, scale: Point, skew: Point, pivot: Point,
    visible: bool, alpha: Float, tweened: bool, ease: Float,
    ref: Option<string>)

  /** LibraryData.LayerData and LibraryData.MovieData. */
  datatype LayerRecord = LayerRecord(name: string, keyframes: seq<KeyframeRecord>)
  datatype MovieRecord = MovieRecord(id: string, layers: seq<LayerRecord>)

  /** The part of LibraryData the movie loop of decodeLibrary reads; atlases are not modelled. */
  datatype LibraryRecord = LibraryRecord(frameRate: Float, movies: seq<MovieRecord>)

  /** flump.KeyframeData: a keyframe record plus the frame `index` it starts on. */
  datatype Keyframe = Keyframe(
    index: Int32, duration: Int32, frameLabel: Option<string>,  // label
    loc: Point, scale: Point, skew: Point, pivot: Point,
    visible: bool, alpha: Float, tweened: bool, ease: Float,
    ref: Option<string>)

  /** flump.LayerData and Movie.Symbol. */
  datatype Layer = Layer(name: string, keyframes: seq<Keyframe>)
  datatype MovieSymbol = MovieSymbol(frameRate: Float, name: string, layers: seq<Layer>)

  /** A decoded keyframe without its index: the record it was decoded from. */
  function Unindexed(kf: Keyframe): KeyframeRecord {
    KeyframeRecord(kf.duration, kf.frameLabel, kf.loc, kf.scale, kf.skew, kf.pivot,
      kf.visible, kf.alpha, kf.tweened, kf.ease, kf.ref)
  }

  // ---------------------------------------------------------------------------------------------
  // decodeKeyframeData

  /** decodeKeyframeData: the record's fields unchanged, starting where the previous keyframe
      ends, or at frame 0 when there is none. */
  function DecodeKeyframeData(kfData: KeyframeRecord, prevKf: Option<Keyframe>): (r: Keyframe)
    ensures Unindexed(r) == kfData
    ensures prevKf.None? ==> r.index == 0
    ensures prevKf.Some? ==> r.index == Wrap32(prevKf.value.index + prevKf.value.duration)
  {
    Keyframe(if prevKf.Some? then Add32(prevKf.value.index, prevKf.value.duration) else 0,
      kfData.duration, kfData.frameLabel, kfData.loc, kfData.scale, kfData.skew, kfData.pivot,
      kfData.visible, kfData.alpha, kfData.tweened, kfData.ease, kfData.ref)
  }

  // ---------------------------------------------------------------------------------------------
  // What a decoded layer, movie and library are

  /** The index the k-th keyframe of a layer gets: 0 for the first, then the previous index plus
      the previous duration, in int arithmetic. */
  function Offset(kfs: seq<KeyframeRecord>, k: nat): Int32
    requires k <= |kfs|
  {
    if k == 0 then 0 else Add32(Offset(kfs, k - 1), kfs[k - 1].duration)
  }

  /** The total of the durations, in unbounded arithmetic. */
  function SumDurations(kfs: seq<KeyframeRecord>): int {
    if kfs == [] then 0 else SumDurations(kfs[..|kfs| - 1]) + kfs[|kfs| - 1].duration
  }

  /** `layer` is what decodeLayerData makes of `layerData`: the same name, and one keyframe per
      record, in order, each carrying its record unchanged and its offset as index. */
  ghost predicate DecodesLayer(layerData: LayerRecord, layer: Layer) {
    && layer.name == layerData.name
    && |layer.keyframes| == |layerData.keyframes|
    && forall k :: 0 <= k < |layer.keyframes| ==>
         Unindexed(layer.keyframes[k]) == layerData.keyframes[k]
         && layer.keyframes[k].index == Offset(layerData.keyframes, k)
  }

  /** `symbol` is what decodeMovie makes of `movieData` at `frameRate`. */
  ghost predicate DecodesMovie(frameRate: Float, movieData: MovieRecord, symbol: MovieSymbol) {
    && symbol.frameRate == frameRate
    && symbol.name == movieData.id
    && |symbol.layers| == |movieData.layers|
    && forall k :: 0 <= k < |symbol.layers| ==> DecodesLayer(movieData.layers[k], symbol.layers[k])
  }

  /** `movies` is what the movie loop of decodeLibrary makes of `libData`. */
  ghost predicate DecodesMovies(libData: LibraryRecord, movies: seq<MovieSymbol>) {
    && |movies| == |libData.movies|
    && forall k :: 0 <= k < |movies| ==> DecodesMovie(libData.frameRate, libData.movies[k], movies[k])
  }

  // ---------------------------------------------------------------------------------------------
  // decodeLayerData, decodeMovie and the movie loop of decodeLibrary

  /** `keyframes` are the first keyframes decoded from `kfs`, each with its record and offset. */
  ghost predicate DecodedPrefix(kfs: seq<KeyframeRecord>, keyframes: seq<Keyframe>) {
    && |keyframes| <= |kfs|
    && forall k :: 0 <= k < |keyframes| ==>
         Unindexed(keyframes[k]) == kfs[k] && keyframes[k].index == Offset(kfs, k)
  }

  /** Decoding the next record after a decoded prefix extends the prefix. */
  lemma DecodedPrefixNext(kfs: seq<KeyframeRecord>, keyframes: seq<Keyframe>)
    requires DecodedPrefix(kfs, keyframes) && |keyframes| < |kfs|
    ensures var i := |keyframes|;
      DecodedPrefix(kfs, keyframes +
        [DecodeKeyframeData(kfs[i], if i == 0 then None else Some(keyframes[i - 1]))])
  {
    var i := |keyframes|;
    var kf := DecodeKeyframeData(kfs[i], if i == 0 then None else Some(keyframes[i - 1]));
    if i > 0 {
      assert Unindexed(keyframes[i - 1]) == kfs[i - 1];
    }
    assert kf.index == Offset(kfs, i);
  }

  /** decodeLayerData: decode the keyframes in order, each after the one before. */
  method DecodeLayerData(layerData: LayerRecord) returns (layer: Layer)
    ensures DecodesLayer(layerData, layer)
  {
    var kfs := layerData.keyframes;
    var keyframes: seq<Keyframe> := [];
    var prevKf: Option<Keyframe> := None;
    var i := 0;
    while i < |kfs|
      invariant i <= |kfs| && |keyframes| == i && DecodedPrefix(kfs, keyframes)
      invariant prevKf == if i == 0 then None else Some(keyframes[i - 1])
    {
      DecodedPrefixNext(kfs, keyframes);
      prevKf := Some(DecodeKeyframeData(kfs[i], prevKf));
      keyframes := keyframes + [prevKf.value];
      i := i + 1;
    }
    layer := Layer(layerData.name, keyframes);
  }

  /** decodeMovie: the movie's id as name, the library's frame rate, its layers decoded in
      order. */
  method DecodeMovie(frameRate: Float, movieData: MovieRecord) returns (symbol: MovieSymbol)
    ensures DecodesMovie(frameRate, movieData, symbol)
  {
    var layers: seq<Layer> := [];
    var i := 0;
    while i < |movieData.layers|
      invariant 0 <= i <= |movieData.layers| && |layers| == i
      invariant forall k :: 0 <= k < i ==> DecodesLayer(movieData.layers[k], layers[k])
    {
      var layer := DecodeLayerData(movieData.layers[i]);
      layers := layers + [layer];
      i := i + 1;
    }
    symbol := MovieSymbol(frameRate, movieData.id, layers);
  }

  /** The movie loop of decodeLibrary: one symbol per movie, in order, all at the library's
      frame rate. */
  method DecodeMovies(libData: LibraryRecord) returns (movies: seq<MovieSymbol>)
    ensures DecodesMovies(libData, movies)
  {
    var frameRate := libData.frameRate;
    movies := [];
    var i := 0;
    while i < |libData.movies|
      invariant 0 <= i <= |libData.movies| && |movies| == i
      invariant forall k :: 0 <= k < i ==> DecodesMovie(frameRate, libData.movies[k], movies[k])
    {
      var symbol := DecodeMovie(frameRate, libData.movies[i]);
      movies := movies + [symbol];
      i := i + 1;
    }
  }

  // ---------------------------------------------------------------------------------------------
  // What decoding promises

  /** A layer's keyframe indices form a chain: the first starts at frame 0 and each later one
      where the one before it ends. */
  ghost predicate IndexChain(keyframes: seq<Keyframe>) {
    && (|keyframes| > 0 ==> keyframes[0].index == 0)
    && forall k :: 0 < k < |keyframes| ==>
         keyframes[k].index == Add32(keyframes[k - 1].index, keyframes[k - 1].duration)
  }

  /** The records of a decoded layer, indices dropped: what it was decoded from. */
  function Encode(layer: Layer): (r: LayerRecord)
    ensures r.name == layer.name && |r.keyframes| == |layer.keyframes|
  {
    LayerRecord(layer.name, seq(|layer.keyframes|, k requires 0 <= k < |layer.keyframes| =>
      Unindexed(layer.keyframes[k])))
  }

  /** A decoded layer's indices form a chain. */
  lemma DecodedIndexChain(layerData: LayerRecord, layer: Layer)
    requires DecodesLayer(layerData, layer)
    ensures IndexChain(layer.keyframes)
  {
    var kfs := layerData.keyframes;
    forall k | 0 < k < |layer.keyframes|
      ensures layer.keyframes[k].index == Add32(layer.keyframes[k - 1].index, layer.keyframes[k - 1].duration)
    {
      assert Unindexed(layer.keyframes[k - 1]).duration == kfs[k - 1].duration;
    }
  }

  /** Round trip: dropping the indices of a decoded layer gives back its records, and a layer
      decodes from its own records exactly when its indices form a chain. */
  lemma EncodeDecode(layerData: LayerRecord, layer: Layer)
    ensures DecodesLayer(layerData, layer) ==> Encode(layer) == layerData
    ensures DecodesLayer(Encode(layer), layer) <==> IndexChain(layer.keyframes)
  {
    if DecodesLayer(layerData, layer) {
      assert Encode(layer).keyframes == layerData.keyframes;
    }
    if IndexChain(layer.keyframes) {
      ChainIsOffset(layer);
    }
    if DecodesLayer(Encode(layer), layer) {
      DecodedIndexChain(Encode(layer), layer);
    }
  }

  /** A chained layer's indices are the offsets of its own records. */
  lemma ChainIsOffset(layer: Layer)
    requires IndexChain(layer.keyframes)
    ensures forall k :: 0 <= k < |layer.keyframes| ==>
      layer.keyframes[k].index == Offset(Encode(layer).keyframes, k)
  {
    var kfs := Encode(layer).keyframes;
    var k := 0;
    while k < |layer.keyframes|
      invariant k <= |layer.keyframes|
      invariant forall j :: 0 <= j < k ==> layer.keyframes[j].index == Offset(kfs, j)
    {
      k := k + 1;
    }
  }

  /** Decoding is a function of its input: two decodings of the same layer are equal. */
  lemma DecodesLayerUnique(layerData: LayerRecord, a: Layer, b: Layer)
    requires DecodesLayer(layerData, a) && DecodesLayer(layerData, b)
    ensures a == b
  {
    forall k | 0 <= k < |a.keyframes|
      ensures a.keyframes[k] == b.keyframes[k]
    {
      var x, y := a.keyframes[k], b.keyframes[k];
      assert Unindexed(x) == Unindexed(y);
    }
    assert a.keyframes == b.keyframes;
  }

  /** 32-bit wrap-around is compatible with addition: wrapping an intermediate sum does not
      change the wrapped total. */
  lemma WrapAdd(x: int, y: int)
    ensures Wrap32(Wrap32(x) + y) == Wrap32(x + y)
  {
    var d := Wrap32(x) - x;
    assert d % TwoTo32 == 0;
    var q := d / TwoTo32;
    assert Wrap32(x) + y == (x + y) + q * TwoTo32;
    ModShift(x + y, q);
  }

  lemma {:induction false} ModShift(a: int, q: int)
    ensures (a + q * TwoTo32) % TwoTo32 == a % TwoTo32
    decreases if q < 0 then -q else q
  {
    if q > 0 {
      ModShift(a, q - 1);
      assert a + q * TwoTo32 == (a + (q - 1) * TwoTo32) + TwoTo32;
    } else if q < 0 {
      ModShift(a, q + 1);
      assert a + q * TwoTo32 == (a + (q + 1) * TwoTo32) - TwoTo32;
    }
  }

  /** The k-th index is the sum of the durations before it, wrapped to 32 bits. */
  lemma {:induction false} OffsetIsSum(kfs: seq<KeyframeRecord>, k: nat)
    requires k <= |kfs|
    ensures Offset(kfs, k) == Wrap32(SumDurations(kfs[..k]))
  {
    if k > 0 {
      OffsetIsSum(kfs, k - 1);
      assert kfs[..k][..k - 1] == kfs[..k - 1];
      WrapAdd(SumDurations(kfs[..k - 1]), kfs[k - 1].duration);
    }
  }

  /** The sum over a prefix is the prefix sum; with no negative durations it only grows. */
  lemma {:induction false} SumPrefix(kfs: seq<KeyframeRecord>, j: nat, k: nat)
    requires j <= k <= |kfs|
    requires forall i :: 0 <= i < |kfs| ==> kfs[i].duration >= 0
    ensures SumDurations(kfs[..j]) <= SumDurations(kfs[..k])
    ensures 0 <= SumDurations(kfs[..k])
    decreases k
  {
    if k > 0 {
      assert kfs[..k][..k - 1] == kfs[..k - 1];
      if j < k {
        SumPrefix(kfs, j, k - 1);
      } else {
        SumPrefix(kfs, k - 1, k - 1);
      }
    }
  }

  /** When no duration is negative and the layer's total length fits in an int, no index wraps
      around: each is the exact sum of the durations before it, and indices never decrease. */
  lemma OffsetsExact(kfs: seq<KeyframeRecord>)
    requires forall i :: 0 <= i < |kfs| ==> kfs[i].duration >= 0
    requires SumDurations(kfs) <= MaxInt
    ensures forall k :: 0 <= k <= |kfs| ==> Offset(kfs, k) == SumDurations(kfs[..k])
    ensures forall j, k :: 0 <= j <= k <= |kfs| ==> Offset(kfs, j) <= Offset(kfs, k)
  {
    assert kfs[..|kfs|] == kfs;
    forall k | 0 <= k <= |kfs|
      ensures Offset(kfs, k) == SumDurations(kfs[..k])
    {
      OffsetIsSum(kfs, k);
      SumPrefix(kfs, k, |kfs|);
    }
    forall j, k | 0 <= j <= k <= |kfs|
      ensures Offset(kfs, j) <= Offset(kfs, k)
    {
      SumPrefix(kfs, j, k);
    }
  }
}
