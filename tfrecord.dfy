/** Conversion of a labelled image list to sharded TFRecord files: each of
    `num_threads` threads writes `num_shards / num_threads` consecutive shards,
    named `<name>-<shard>-of-<num_shards>` with both numbers zero-padded to five
    digits, holding one Example per image that decodes. As written, both entry
    points read a global `FLAGS` that is never defined; the corrected versions
    take the output directory (and the thread split) as arguments. */
module TfRecord {
  import opened Values
  import Decimal

  // ---------------------------------------------------------------- features

  predicate EndsWith(s: string, suffix: string) {
    |s| >= |suffix| && s[|s| - |suffix|..] == suffix
  }

  /** `_is_png`: the name ends in ".png", in lower case. */
  function IsPng(filename: string): (r: bool)
    ensures r <==> |filename| >= 4 && filename[|filename| - 4..] == ".png"
  {
    EndsWith(filename, ".png")
  }

  /** The test is case-sensitive: an upper-case extension is not a PNG. */
  lemma PngTestIsCaseSensitive()
    ensures IsPng("photo.png") && !IsPng("photo.PNG") && !IsPng("png")
  {
  }

  /** A feature of an Example proto: 64-bit integers, or byte strings. Strings
      passed through `as_bytes` are kept as strings: the UTF-8 encoding is not
      modelled. */
  datatype Feature = Int64List(ints: seq<int>) | BytesList(bytes: seq<Value>)

  const INT64_MIN: int := -0x8000_0000_0000_0000
  const INT64_MAX: int := 0x7fff_ffff_ffff_ffff

  /** A value an int64 list field accepts: an int within 64 bits, or a bool
      (a Python int). */
  predicate IsInt64(v: Value) {
    (v.VInt? && INT64_MIN <= v.i <= INT64_MAX) || v.VBool?
  }

  /** The integer an accepted value is stored as. */
  function Int64Of(v: Value): int
    requires IsInt64(v)
  {
    if v.VBool? then (if v.b then 1 else 0) else v.i
  }

  /** The integers an int64 list is built from; any other value is refused with
      a TypeError (not an int) or a ValueError (out of range). */
  function Int64Values(vs: seq<Value>): (r: Result<seq<int>>)
    ensures r.Ok? <==> forall i :: 0 <= i < |vs| ==> IsInt64(vs[i])
    ensures r.Err? ==> r.failure == FeatureRejected
    ensures r.Ok? ==> |r.value| == |vs| && forall i :: 0 <= i < |vs| ==> r.value[i] == Int64Of(vs[i])
  {
    if vs == [] then Ok([])
    else
      var front :- Int64Values(vs[..|vs| - 1]);
      var last := vs[|vs| - 1];
      if IsInt64(last) then Ok(front + [Int64Of(last)]) else Err(FeatureRejected)
  }

  /** A label is accepted when it is a 64-bit integer or a list of them. */
  predicate Int64Encodable(value: Value) {
    if value.VList? then forall i :: 0 <= i < |value.items| ==> IsInt64(value.items[i])
    else IsInt64(value)
  }

  /** `_int64_feature`: a list is used as the feature's values, anything else is
      wrapped in a one-element list; the feature is refused unless every value is
      a 64-bit integer. */
  function Int64Feature(value: Value): (f: Result<Feature>)
    ensures f.Ok? <==> Int64Encodable(value)
    ensures f.Err? ==> f.failure == FeatureRejected
    ensures f.Ok? && value.VList? ==>
              && f.value.Int64List? && |f.value.ints| == |value.items|
              && forall i :: 0 <= i < |value.items| ==> f.value.ints[i] == Int64Of(value.items[i])
    ensures f.Ok? && !value.VList? ==> f.value == Int64List([Int64Of(value)])
  {
    if value.VList? then
      var ints :- Int64Values(value.items);
      Ok(Int64List(ints))
    else if IsInt64(value) then Ok(Int64List([Int64Of(value)]))
    else Err(FeatureRejected)
  }

  /** Wrapping is stable: the integers of a feature, given back as a list, make
      the same feature. */
  lemma Int64FeatureStable(value: Value)
    requires Int64Feature(value).Ok?
    ensures var ints := Int64Feature(value).value.ints;
            Int64Feature(VList(seq(|ints|, i requires 0 <= i < |ints| => VInt(ints[i])))) == Int64Feature(value)
  {
    var ints := Int64Feature(value).value.ints;
    var back := seq(|ints|, i requires 0 <= i < |ints| => VInt(ints[i]));
    assert forall i :: 0 <= i < |back| ==> IsInt64(back[i]) by {
      var vs := if value.VList? then value.items else [value];
      forall i | 0 <= i < |back| ensures IsInt64(back[i]) {
        assert ints[i] == Int64Of(vs[i]);
      }
    }
    var again := Int64Values(back).value;
    assert again == ints;
  }

  /** A text label is refused: the string "dog" is not an integer. */
  lemma TextLabelRefused()
    ensures Int64Feature(VStr("dog")) == Err(FeatureRejected)
    ensures Int64Feature(VList([VInt(3), VStr("dog")])) == Err(FeatureRejected)
    ensures Int64Feature(VInt(INT64_MAX + 1)) == Err(FeatureRejected)
    ensures Int64Feature(VInt(7)) == Ok(Int64List([7]))
  {
  }

  /** `_bytes_feature`: the value as the one entry of a bytes list. */
  function BytesFeature(value: Value): (f: Feature)
    ensures f.BytesList? && |f.bytes| == 1 && f.bytes[0] == value
  {
    BytesList([value])
  }

  /** `os.path.basename`: what follows the last '/'. */
  function Basename(path: string): (b: string)
    ensures |b| <= |path| && '/' !in b
    decreases |path|
  {
    if path == [] || path[|path| - 1] == '/' then []
    else Basename(path[..|path| - 1]) + [path[|path| - 1]]
  }

  /** The basename is the last component of the path: a suffix without '/',
      preceded in the path by a '/' when it is not the whole path. */
  lemma {:induction false} BasenameIsLastComponent(path: string)
    ensures var b := Basename(path);
            && '/' !in b
            && |b| <= |path| && b == path[|path| - |b|..]
            && (|b| < |path| ==> path[|path| - |b| - 1] == '/')
    decreases |path|
  {
    if path != [] && path[|path| - 1] != '/' {
      var front := path[..|path| - 1];
      BasenameIsLastComponent(front);
      var b := Basename(path);
      assert b == Basename(front) + [path[|path| - 1]];
      assert front[|front| - |Basename(front)|..] + [path[|path| - 1]] == path[|path| - |b|..];
    }
  }

  /** An Example proto: one feature under each of the keys "image/height",
      "image/width", "image/colorspace", "image/channels", "image/class/label",
      "image/class/text", "image/format", "image/filename" and "image/encoded". */
  datatype Example = Example(height: Feature, width: Feature, colorspace: Feature, channels: Feature,
                             classLabel: Feature, classText: Feature, format: Feature, filename: Feature,
                             encoded: Feature)

  /** `_convert_to_example`: the image with its size, label and text, the fixed
      colorspace RGB, 3 channels (always accepted as an int64 feature) and
      format JPEG, and the file's basename. The int64 features refuse a label, height or width that is not a 64-bit
      integer, and then no Example is made. */
  function ConvertToExample(filename: string, imageBuffer: seq<bv8>, classLabel: Value, text: string,
                            height: int, width: int): (e: Result<Example>)
    ensures e.Ok? <==> Int64Encodable(classLabel) && IsInt64(VInt(height)) && IsInt64(VInt(width))
    ensures e.Err? ==> e.failure == FeatureRejected
    ensures e.Ok? ==>
              && e.value.colorspace == BytesList([VStr("RGB")])
              && e.value.channels == Int64List([3])
              && e.value.format == BytesList([VStr("JPEG")])
              && e.value.filename == BytesList([VStr(Basename(filename))])
              && e.value.height == Int64List([height]) && e.value.width == Int64List([width])
              && Int64Feature(classLabel) == Ok(e.value.classLabel)
              && e.value.classText == BytesList([VStr(text)])
              && e.value.encoded == BytesList([VBytes(imageBuffer)])
  {
    var heightFeature :- Int64Feature(VInt(height));
    var widthFeature :- Int64Feature(VInt(width));
    var labelFeature :- Int64Feature(classLabel);
    Ok(Example(
      height := heightFeature,
      width := widthFeature,
      colorspace := BytesFeature(VStr("RGB")),
      channels := Int64List([3]),
      classLabel := labelFeature,
      classText := BytesFeature(VStr(text)),
      format := BytesFeature(VStr("JPEG")),
      filename := BytesFeature(VStr(Basename(filename))),
      encoded := BytesFeature(VBytes(imageBuffer))))
  }

  /** The stored file name never contains a directory. */
  lemma ExampleFilenameIsBase(filename: string, imageBuffer: seq<bv8>, classLabel: Value, text: string,
                              height: int, width: int)
    ensures var e := ConvertToExample(filename, imageBuffer, classLabel, text, height, width);
            e.Ok? ==>
              var f := e.value.filename;
              && f.BytesList? && |f.bytes| == 1 && f.bytes[0].VStr? && '/' !in f.bytes[0].s
              && |f.bytes[0].s| <= |filename|
              && filename == filename[..|filename| - |f.bytes[0].s|] + f.bytes[0].s
  {
    BasenameIsLastComponent(filename);
    var b := Basename(filename);
    assert filename == filename[..|filename| - |b|] + filename[|filename| - |b|..];
  }

  /** A label given as text, such as 'dog', is refused. */
  lemma TextLabelRefusesExample(filename: string, imageBuffer: seq<bv8>, height: int, width: int)
    ensures ConvertToExample(filename, imageBuffer, VStr("dog"), "dog", height, width) == Err(FeatureRejected)
  {
  }

  // ---------------------------------------------------------------- shards

  /** The shards each thread writes: the thread count must divide the shard count
      (a failed `assert`); no threads at all divides by zero. */
  function ShardsPerBatch(numShards: nat, numThreads: nat): (r: Result<nat>)
    ensures numThreads == 0 ==> r == Err(Defect)
    ensures numThreads > 0 && numShards % numThreads != 0 ==> r == Err(AssertionFailed)
    ensures r.Ok? <==> numThreads > 0 && numShards % numThreads == 0
  {
    if numThreads == 0 then Err(Defect)
    else if numShards % numThreads != 0 then Err(AssertionFailed)
    else Ok(numShards / numThreads)
  }

  /** When the check passes, the threads split the shards evenly: k shards each,
      k times the thread count in all. */
  lemma ShardsSplitEvenly(numShards: nat, numThreads: nat)
    requires ShardsPerBatch(numShards, numThreads).Ok?
    ensures ShardsPerBatch(numShards, numThreads).value * numThreads == numShards
  {
  }

  /** The first shard of thread t when every thread writes k shards. */
  function FirstShard(t: nat, k: nat): nat {
    t * k
  }

  /** The shard indices thread t writes, in order. */
  function ThreadShards(t: nat, k: nat): (r: seq<nat>)
    ensures |r| == k && forall s :: 0 <= s < k ==> r[s] == t * k + s
  {
    seq(k, s requires 0 <= s => t * k + s)
  }

  /** The shard indices of threads 0 .. n-1, thread after thread. */
  function AllThreadShards(n: nat, k: nat): seq<nat> {
    if n == 0 then [] else AllThreadShards(n - 1, k) + ThreadShards(n - 1, k)
  }

  /** Together the threads write every shard 0 .. n*k-1 exactly once, in order. */
  lemma {:induction false} ShardsCoverExactlyOnce(n: nat, k: nat)
    ensures |AllThreadShards(n, k)| == n * k
    ensures forall j :: 0 <= j < n * k ==> AllThreadShards(n, k)[j] == j
  {
    if n > 0 {
      ShardsCoverExactlyOnce(n - 1, k);
      assert (n - 1) * k + k == n * k;
    }
  }

  /** Different threads never write the same shard. */
  lemma ThreadsDisjoint(t1: nat, s1: nat, t2: nat, s2: nat, k: nat)
    requires s1 < k && s2 < k && t1 != t2
    ensures t1 * k + s1 != t2 * k + s2
  {
    if t1 < t2 {
      assert (t1 + 1) * k <= t2 * k;
    } else {
      assert (t2 + 1) * k <= t1 * k;
    }
  }

  lemma MulMonotone(a: nat, b: nat, k: nat)
    ensures a <= b ==> a * k <= b * k
  {
    if a <= b {
      assert b * k == a * k + (b - a) * k;
    }
  }

  /** Every shard below n*k is written by thread j / k, as its shard j % k. */
  lemma ShardOwner(j: nat, n: nat, k: nat)
    requires j < n * k
    ensures k > 0 && j / k < n && j == (j / k) * k + j % k && j % k < k
  {
    assert k != 0 by {
      assert k == 0 ==> n * k == 0;
    }
    MulMonotone(n, j / k, k);
  }

  /** `'%s-%.5d-of-%.5d' % (name, shard, num_shards)`. */
  function ShardName(name: string, shard: nat, numShards: nat): (f: string)
    ensures |f| >= |name| + 15 && f[..|name| + 1] == name + "-"
  {
    name + "-" + Decimal.FormatPadded(shard, 5) + "-of-" + Decimal.FormatPadded(numShards, 5)
  }

  /** Below 100000 both numbers take exactly five digits: the name is always 15
      characters longer than the data set name, with the shard at a fixed place. */
  lemma ShardNameLayout(name: string, shard: nat, numShards: nat)
    requires shard < 100000 && numShards < 100000
    ensures var f := ShardName(name, shard, numShards);
            && |f| == |name| + 15
            && f[..|name|] == name && f[|name|] == '-' && f[|name| + 6..|name| + 10] == "-of-"
            && Decimal.AllDigits(f[|name| + 1..|name| + 6]) && Decimal.ValueOf(f[|name| + 1..|name| + 6]) == shard
            && Decimal.AllDigits(f[|name| + 10..]) && Decimal.ValueOf(f[|name| + 10..]) == numShards
  {
    assert Decimal.Pow10(5) == 100000;
    Decimal.DigitsLength(shard, 5);
    Decimal.DigitsLength(numShards, 5);
    var a := Decimal.FormatPadded(shard, 5);
    var b := Decimal.FormatPadded(numShards, 5);
    var f := ShardName(name, shard, numShards);
    assert f == name + "-" + a + "-of-" + b;
    assert f[|name| + 1..|name| + 6] == a;
    assert f[|name| + 10..] == b;
  }

  /** The shard number can be read back from the name: different shards of the
      same data set get different names, whatever their size. */
  lemma ShardNameInjective(name: string, a: nat, b: nat, numShards: nat)
    requires ShardName(name, a, numShards) == ShardName(name, b, numShards)
    ensures a == b
  {
    var pa := Decimal.FormatPadded(a, 5);
    var pb := Decimal.FormatPadded(b, 5);
    MiddleEqual(name + "-", pa, pb, "-of-", Decimal.FormatPadded(numShards, 5));
  }

  lemma MiddleEqual(x: string, a: string, b: string, y: string, z: string)
    requires x + a + y + z == x + b + y + z
    ensures a == b
  {
    var f := x + a + y + z;
    assert |a| == |b|;
    assert a == f[|x|..|x| + |a|];
    assert b == (x + b + y + z)[|x|..|x| + |b|];
  }

  /** A concrete name, as in the data set's documentation. */
  lemma ShardNameExample()
    ensures ShardName("train", 2, 10) == "train-00002-of-00010"
  {
    assert Decimal.Digits(2) == "2";
    assert Decimal.Digits(10) == "10" by {
      assert Decimal.Digits(1) == "1";
    }
    assert Decimal.Zeros(4) == "0000";
    assert Decimal.Zeros(3) == "000";
  }

  /** `os.path.join(directory, file)`. */
  function Join(directory: string, file: string): (p: string)
    ensures |p| >= |file| && p[|p| - |file|..] == file
    ensures |file| > 0 && file[0] == '/' ==> p == file
  {
    if |file| > 0 && file[0] == '/' then file
    else if directory == [] || directory[|directory| - 1] == '/' then directory + file
    else directory + "/" + file
  }

  lemma JoinInjective(directory: string, a: string, b: string)
    requires (|a| > 0 && a[0] == '/') == (|b| > 0 && b[0] == '/')
    requires Join(directory, a) == Join(directory, b)
    ensures a == b
  {
    if !(|a| > 0 && a[0] == '/') {
      var p := if directory == [] || directory[|directory| - 1] == '/' then directory else directory + "/";
      assert Join(directory, a) == p + a && Join(directory, b) == p + b;
      assert a == Join(directory, a)[|p|..];
    }
  }

  /** The path of a shard file. */
  function ShardPath(outputDir: string, name: string, shard: nat, numShards: nat): string {
    Join(outputDir, ShardName(name, shard, numShards))
  }

  /** Different shards are written to different files. */
  lemma ShardPathsDistinct(outputDir: string, name: string, a: nat, b: nat, numShards: nat)
    requires a != b
    ensures ShardPath(outputDir, name, a, numShards) != ShardPath(outputDir, name, b, numShards)
  {
    var na := ShardName(name, a, numShards);
    var nb := ShardName(name, b, numShards);
    if ShardPath(outputDir, name, a, numShards) == ShardPath(outputDir, name, b, numShards) {
      assert na[..|name| + 1] == nb[..|name| + 1];
      JoinInjective(outputDir, na, nb);
      ShardNameInjective(name, a, b, numShards);
    }
  }

  // ---------------------------------------------------------------- batches

  /** Reading and decoding one image (`_process_image`): the JPEG bytes, height
      and width, or None when anything in it raises and the image is skipped. */
  type Decoder = string -> Option<(seq<bv8>, int, int)>

  /** The image files with their label texts and labels, index by index. */
  datatype ImageList = ImageList(filenames: seq<string>, texts: seq<string>, labels: seq<Value>) {
    predicate Consistent() {
      |texts| == |filenames| && |labels| == |filenames|
    }
  }

  /** How many of the files lo .. hi-1 decode. */
  function DecodableCount(filenames: seq<string>, lo: nat, hi: int, decode: Decoder): (n: nat)
    requires hi <= |filenames|
    ensures n <= if hi <= lo then 0 else hi - lo
    decreases hi - lo
  {
    if hi <= lo then 0
    else DecodableCount(filenames, lo, hi - 1, decode) + (if decode(filenames[hi - 1]).Some? then 1 else 0)
  }

  /** The example of image i, from its decoded bytes and size. */
  function ImageExample(images: ImageList, i: nat, decoded: (seq<bv8>, int, int)): Result<Example>
    requires images.Consistent() && i < |images.filenames|
  {
    ConvertToExample(images.filenames[i], decoded.0, images.labels[i], images.texts[i], decoded.1, decoded.2)
  }

  /** Image i is skipped or converted without an exception: it fails to decode,
      or its label and size are 64-bit integers. */
  predicate Convertible(images: ImageList, i: nat, decode: Decoder)
    requires images.Consistent() && i < |images.filenames|
  {
    var decoded := decode(images.filenames[i]);
    decoded.None? || (Int64Encodable(images.labels[i]) && IsInt64(VInt(decoded.value.1)) && IsInt64(VInt(decoded.value.2)))
  }

  /** What the inner loop's body makes of file i: nothing when it fails to
      decode, else its Example or the refusal. */
  function Conversion(images: ImageList, i: nat, decode: Decoder): Option<Result<Example>>
    requires images.Consistent() && i < |images.filenames|
  {
    var decoded := decode(images.filenames[i]);
    if decoded.None? then None else Some(ImageExample(images, i, decoded.value))
  }

  /** The conversions of the first n files, in order. */
  function Conversions(images: ImageList, decode: Decoder, n: nat): (r: seq<Option<Result<Example>>>)
    requires images.Consistent() && n <= |images.filenames|
    ensures |r| == n
    ensures forall i :: 0 <= i < n ==> (r[i].None? <==> decode(images.filenames[i]).None?)
    ensures forall i :: 0 <= i < n && r[i].Some? && r[i].value.Err? ==> r[i].value.failure == FeatureRejected
  {
    if n == 0 then [] else Conversions(images, decode, n - 1) + [Conversion(images, n - 1, decode)]
  }

  /** Entry i of the conversions is file i's conversion. */
  lemma {:induction false} ConversionsAt(images: ImageList, decode: Decoder, n: nat, i: nat)
    requires images.Consistent() && i < n <= |images.filenames|
    ensures Conversions(images, decode, n)[i] == Conversion(images, i, decode)
  {
    if i < n - 1 {
      ConversionsAt(images, decode, n - 1, i);
    }
  }

  /** How a loop ended: it ran to its end, or an exception stopped it. */
  datatype Outcome = Completed | Stopped(failure: Failure)

  /** What a loop leaves behind: the items it wrote, in order, and how it ended. */
  datatype Written<T> = Written(items: seq<T>, outcome: Outcome)

  /** The examples written for the files lo .. hi-1: one per file that decodes,
      in order, until a file whose Example is refused raises and ends the loop. */
  function ShardExamples(images: ImageList, lo: nat, hi: int, decode: Decoder): (r: Written<Example>)
    requires images.Consistent() && hi <= |images.filenames|
    ensures |r.items| <= DecodableCount(images.filenames, lo, hi, decode)
    ensures r.outcome.Completed? ==> |r.items| == DecodableCount(images.filenames, lo, hi, decode)
    ensures r.outcome.Stopped? ==> r.outcome.failure == FeatureRejected
    decreases hi - lo
  {
    if hi <= lo then Written([], Completed)
    else
      var before := ShardExamples(images, lo, hi - 1, decode);
      var converted := Conversions(images, decode, |images.filenames|)[hi - 1];
      if before.outcome.Stopped? || converted.None? then before
      else match converted.value
        case Ok(e) => Written(before.items + [e], Completed)
        case Err(f) => Written(before.items, Stopped(f))
  }

  /** Once a file's Example is refused, the later files of the shard change nothing. */
  lemma {:induction false} ShardStopsAtRefusal(images: ImageList, lo: nat, i: int, hi: int, decode: Decoder)
    requires images.Consistent() && i <= hi <= |images.filenames|
    requires ShardExamples(images, lo, i, decode).outcome.Stopped?
    ensures ShardExamples(images, lo, hi, decode) == ShardExamples(images, lo, i, decode)
    decreases hi - i
  {
    if hi > i {
      ShardStopsAtRefusal(images, lo, i, hi - 1, decode);
    }
  }

  /** Every image of files lo .. hi-1 is skipped or converted. */
  predicate RangeConvertible(images: ImageList, lo: int, hi: int, decode: Decoder)
    requires images.Consistent() && hi <= |images.filenames|
  {
    forall i :: 0 <= lo <= i < hi ==> Convertible(images, i, decode)
  }

  /** An image is skipped or converted exactly when it is Convertible. */
  lemma ImageConvertible(images: ImageList, i: nat, decode: Decoder)
    requires images.Consistent() && i < |images.filenames|
    ensures var c := Conversions(images, decode, |images.filenames|)[i];
            c.None? || c.value.Ok? <==> Convertible(images, i, decode)
  {
    ConversionsAt(images, decode, |images.filenames|, i);
  }

  /** A shard's loop runs to its end exactly when no Example of its files is refused. */
  lemma {:induction false} ShardCompletesIff(images: ImageList, lo: nat, hi: int, decode: Decoder)
    requires images.Consistent() && hi <= |images.filenames|
    ensures ShardExamples(images, lo, hi, decode).outcome.Completed? <==> RangeConvertible(images, lo, hi, decode)
    decreases hi - lo
  {
    if hi > lo {
      ShardCompletesIff(images, lo, hi - 1, decode);
      ImageConvertible(images, hi - 1, decode);
      assert RangeConvertible(images, lo, hi, decode)
          <==> RangeConvertible(images, lo, hi - 1, decode) && Convertible(images, hi - 1, decode);
    }
  }

  /** Once the shard-count check passes, a thread has one file boundary more than shards. */
  predicate RangesMatch(shardRanges: seq<int>, numShards: nat, numThreads: nat) {
    ShardsPerBatch(numShards, numThreads).Ok? ==> |shardRanges| == ShardsPerBatch(numShards, numThreads).value + 1
  }

  /** What one run writes to: the directory, the data set name and the shard count. */
  datatype Target = Target(outputDir: string, name: string, numShards: nat)

  /** A shard file: the shard it holds and the examples written to it. */
  datatype ShardFile = ShardFile(shard: nat, examples: seq<Example>) {
    /** The file the shard is written to. */
    function Path(target: Target): string {
      ShardPath(target.outputDir, target.name, shard, target.numShards)
    }
  }

  /** The file boundaries of a thread's shards lie within the file list. */
  predicate ShardRangesFit(shardRanges: seq<int>, count: nat) {
    forall s :: 0 <= s < |shardRanges| ==> 0 <= shardRanges[s] <= count
  }

  /** The shard files of a thread's first `s` shards, whose shards start at shard
      `first` (thread t of threads writing k shards each starts at t * k): one
      file per shard until a refused Example ends the thread, whose last file
      then holds the examples written before the refusal. */
  function ThreadFiles(target: Target, first: nat, shardRanges: seq<int>, images: ImageList, decode: Decoder,
                       s: nat): (r: Written<ShardFile>)
    requires images.Consistent() && s < |shardRanges| && ShardRangesFit(shardRanges, |images.filenames|)
    ensures |r.items| <= s
    ensures r.outcome.Completed? ==> |r.items| == s
    ensures r.outcome.Stopped? ==> r.outcome.failure == FeatureRejected && |r.items| > 0
  {
    if s == 0 then Written([], Completed)
    else
      var before := ThreadFiles(target, first, shardRanges, images, decode, s - 1);
      if before.outcome.Stopped? then before
      else
        var w := ShardExamples(images, shardRanges[s - 1], shardRanges[s], decode);
        Written(before.items + [ShardFile(first + s - 1, w.items)], w.outcome)
  }

  /** Once a thread has stopped, its later shards change nothing. */
  lemma {:induction false} ThreadStopsAtRefusal(target: Target, first: nat, shardRanges: seq<int>, images: ImageList,
                                                decode: Decoder, i: nat, s: nat)
    requires images.Consistent() && i <= s < |shardRanges| && ShardRangesFit(shardRanges, |images.filenames|)
    requires ThreadFiles(target, first, shardRanges, images, decode, i).outcome.Stopped?
    ensures ThreadFiles(target, first, shardRanges, images, decode, s)
         == ThreadFiles(target, first, shardRanges, images, decode, i)
    decreases s - i
  {
    if s > i {
      ThreadStopsAtRefusal(target, first, shardRanges, images, decode, i, s - 1);
    }
  }

  /** A thread writes all its shards exactly when no Example of their files is refused. */
  lemma {:induction false} ThreadCompletesIff(target: Target, first: nat, shardRanges: seq<int>, images: ImageList,
                                              decode: Decoder, s: nat)
    requires images.Consistent() && s < |shardRanges| && ShardRangesFit(shardRanges, |images.filenames|)
    ensures ThreadFiles(target, first, shardRanges, images, decode, s).outcome.Completed? <==>
              forall j :: 0 <= j < s ==> RangeConvertible(images, shardRanges[j], shardRanges[j + 1], decode)
  {
    if s > 0 {
      ThreadCompletesIff(target, first, shardRanges, images, decode, s - 1);
      ShardCompletesIff(images, shardRanges[s - 1], shardRanges[s], decode);
    }
  }

  /** A shard with a refused Example is the last one a thread writes: the
      thread ends with that shard's file and no later one. */
  lemma RefusedShardIsLast(target: Target, first: nat, shardRanges: seq<int>, images: ImageList, decode: Decoder,
                           i: nat, s: nat)
    requires images.Consistent() && i < s < |shardRanges| && ShardRangesFit(shardRanges, |images.filenames|)
    requires ThreadFiles(target, first, shardRanges, images, decode, i).outcome.Completed?
    requires !RangeConvertible(images, shardRanges[i], shardRanges[i + 1], decode)
    ensures ThreadFiles(target, first, shardRanges, images, decode, s).outcome == Stopped(FeatureRejected)
    ensures |ThreadFiles(target, first, shardRanges, images, decode, s).items| == i + 1
  {
    ShardCompletesIff(images, shardRanges[i], shardRanges[i + 1], decode);
    assert ThreadFiles(target, first, shardRanges, images, decode, i + 1).outcome.Stopped?;
    ThreadStopsAtRefusal(target, first, shardRanges, images, decode, i + 1, s);
  }

  /** When every image is skipped or converted, a thread writes all its shards. */
  lemma ConvertibleImagesComplete(target: Target, first: nat, shardRanges: seq<int>, images: ImageList,
                                  decode: Decoder, s: nat)
    requires images.Consistent() && s < |shardRanges| && ShardRangesFit(shardRanges, |images.filenames|)
    requires forall i :: 0 <= i < |images.filenames| ==> Convertible(images, i, decode)
    ensures ThreadFiles(target, first, shardRanges, images, decode, s).outcome.Completed?
    ensures |ThreadFiles(target, first, shardRanges, images, decode, s).items| == s
  {
    ThreadCompletesIff(target, first, shardRanges, images, decode, s);
  }

  /** Shard file j of a thread holds shard first + j. */
  lemma {:induction false} ThreadFilesShards(target: Target, first: nat, shardRanges: seq<int>, images: ImageList,
                                            decode: Decoder, s: nat)
    requires images.Consistent() && s < |shardRanges| && ShardRangesFit(shardRanges, |images.filenames|)
    ensures forall j :: 0 <= j < |ThreadFiles(target, first, shardRanges, images, decode, s).items| ==>
              ThreadFiles(target, first, shardRanges, images, decode, s).items[j].shard == first + j
  {
    if s > 0 {
      ThreadFilesShards(target, first, shardRanges, images, decode, s - 1);
      var before := ThreadFiles(target, first, shardRanges, images, decode, s - 1);
      if before.outcome.Completed? {
        var w := ShardExamples(images, shardRanges[s - 1], shardRanges[s], decode);
        var files := ThreadFiles(target, first, shardRanges, images, decode, s).items;
        assert files == before.items + [ShardFile(first + s - 1, w.items)];
        forall j | 0 <= j < |files|
          ensures files[j].shard == first + j
        {
          if j < |before.items| {
            assert files[j] == before.items[j];
          }
        }
      }
    }
  }

  /** Thread t's files hold, in order, the shards `ThreadShards(t, k)` assigns to it. */
  lemma ThreadFilesFollowThreadShards(target: Target, t: nat, k: nat, shardRanges: seq<int>, images: ImageList,
                                      decode: Decoder)
    requires images.Consistent() && |shardRanges| == k + 1 && ShardRangesFit(shardRanges, |images.filenames|)
    ensures |ThreadFiles(target, FirstShard(t, k), shardRanges, images, decode, k).items| <= |ThreadShards(t, k)|
    ensures forall j :: 0 <= j < |ThreadFiles(target, FirstShard(t, k), shardRanges, images, decode, k).items| ==>
              ThreadFiles(target, FirstShard(t, k), shardRanges, images, decode, k).items[j].shard
              == ThreadShards(t, k)[j]
  {
    ThreadFilesShards(target, FirstShard(t, k), shardRanges, images, decode, k);
  }

  /** The number of examples in a list of shard files. */
  function CountExamples(files: seq<ShardFile>): nat {
    if files == [] then 0 else CountExamples(files[..|files| - 1]) + |files[|files| - 1].examples|
  }

  /** One more shard file: the next shard, with the examples written for its range. */
  lemma ThreadFilesStep(target: Target, first: nat, shardRanges: seq<int>, images: ImageList, decode: Decoder, s: nat,
                        files: seq<ShardFile>, w: Written<Example>, next: ShardFile)
    requires images.Consistent() && s + 1 < |shardRanges| && ShardRangesFit(shardRanges, |images.filenames|)
    requires ThreadFiles(target, first, shardRanges, images, decode, s).items == files
    requires ThreadFiles(target, first, shardRanges, images, decode, s).outcome.Completed?
    requires w == ShardExamples(images, shardRanges[s], shardRanges[s + 1], decode)
    requires next == ShardFile(first + s, w.items)
    ensures ThreadFiles(target, first, shardRanges, images, decode, s + 1) == Written(files + [next], w.outcome)
    ensures CountExamples(files + [next]) == CountExamples(files) + |next.examples|
  {
    assert (files + [next])[..|files|] == files;
  }

  /** What a thread leaves behind: its shard files, its image counter, and how it
      ended. */
  datatype Batch = Batch(files: seq<ShardFile>, counter: nat, outcome: Outcome)

  /** What thread `threadIndex` of `numThreads` produces: nothing when the
      shard-count check fails, else its shard files and counter up to the end or
      to the refused Example that ends it. */
  function BatchResult(target: Target, decode: Decoder, threadIndex: nat, numThreads: nat, shardRanges: seq<int>,
                       images: ImageList): Batch
    requires images.Consistent() && ShardRangesFit(shardRanges, |images.filenames|)
    requires RangesMatch(shardRanges, target.numShards, numThreads)
  {
    match ShardsPerBatch(target.numShards, numThreads)
    case Err(f) => Batch([], 0, Stopped(f))
    case Ok(k) =>
      var w := ThreadFiles(target, FirstShard(threadIndex, k), shardRanges, images, decode, k);
      Batch(w.items, CountExamples(w.items), w.outcome)
  }

  /** `_process_image_files_batch` as written: after the shard-count check, the
      first shard reads the undefined `FLAGS`; only a thread with no shards
      returns. */
  function ProcessImageFilesBatch(threadIndex: nat, ranges: seq<(int, int)>, name: string,
                                  images: ImageList, numShards: nat): (r: Result<()>)
    requires threadIndex < |ranges|
    ensures r.Ok? <==> numShards == 0
    ensures numShards > 0 && numShards % |ranges| != 0 ==> r == Err(AssertionFailed)
    ensures numShards > 0 && numShards % |ranges| == 0 ==> r == Err(Defect)
  {
    var k :- ShardsPerBatch(numShards, |ranges|);
    if k == 0 then Ok(()) else Err(Defect)
  }

  /** `_process_image_files_batch` with the output directory as an argument. The
      per-shard file ranges, which the source computes with floating-point
      `linspace`, are given. Returns the shard files in order, the counter of
      images written and how the thread ended; an image that fails to decode is
      skipped and not counted, and a refused Example ends the thread. */
  method ProcessImageFilesBatchInto(target: Target, decode: Decoder, threadIndex: nat, ranges: seq<(int, int)>,
                                    shardRanges: seq<int>, images: ImageList)
    returns (r: Batch)
    requires threadIndex < |ranges|
    requires images.Consistent() && ShardRangesFit(shardRanges, |images.filenames|)
    requires RangesMatch(shardRanges, target.numShards, |ranges|)
    ensures r == BatchResult(target, decode, threadIndex, |ranges|, shardRanges, images)
  {
    var split := ShardsPerBatch(target.numShards, |ranges|);
    if split.Err? {
      return Batch([], 0, Stopped(split.failure));
    }
    var k := split.value;
    var first := FirstShard(threadIndex, k);
    var files: seq<ShardFile> := [];
    var counter: nat := 0;
    var s := 0;
    while s < k
      invariant 0 <= s <= k
      invariant ThreadFiles(target, first, shardRanges, images, decode, s).items == files
      invariant ThreadFiles(target, first, shardRanges, images, decode, s).outcome.Completed?
      invariant counter == CountExamples(files)
    {
      var shard := first + s;
      var w := WriteShard(images, shardRanges[s], shardRanges[s + 1], decode);
      var written := ShardFile(shard, w.items);
      ThreadFilesStep(target, first, shardRanges, images, decode, s, files, w, written);
      files := files + [written];
      counter := counter + |written.examples|;
      if w.outcome.Stopped? {
        ThreadStopsAtRefusal(target, first, shardRanges, images, decode, s + 1, k);
        return Batch(files, counter, w.outcome);
      }
      s := s + 1;
    }
    return Batch(files, counter, Completed);
  }

  /** The inner loop of `_process_image_files_batch`: the examples of the files
      lo .. hi-1 that decode, in order, and `shard_counter` as their number,
      until a refused Example raises out of the loop. */
  method WriteShard(images: ImageList, lo: nat, hi: int, decode: Decoder) returns (w: Written<Example>)
    requires images.Consistent() && lo <= |images.filenames| && hi <= |images.filenames|
    ensures w == ShardExamples(images, lo, hi, decode)
  {
    var examples: seq<Example> := [];
    if hi <= lo {
      return Written(examples, Completed);
    }
    var shardCounter := 0;
    var i := lo;
    while i < hi
      invariant lo <= i <= hi
      invariant ShardExamples(images, lo, i, decode) == Written(examples, Completed)
      invariant shardCounter == |examples|
    {
      var step, written := WriteImage(images, lo, i, decode, examples);
      if step.outcome.Stopped? {
        ShardStopsAtRefusal(images, lo, i + 1, hi, decode);
        return step;
      }
      examples := step.items;
      if written {
        shardCounter := shardCounter + 1;
      }
      i := i + 1;
    }
    return Written(examples, Completed);
  }

  /** One pass of the inner loop, on file i: a file that fails to decode is
      skipped; otherwise its Example is written, or its refusal raises. */
  method WriteImage(images: ImageList, lo: nat, i: nat, decode: Decoder, examples: seq<Example>)
    returns (w: Written<Example>, written: bool)
    requires images.Consistent() && lo <= i < |images.filenames|
    requires ShardExamples(images, lo, i, decode) == Written(examples, Completed)
    ensures w == ShardExamples(images, lo, i + 1, decode)
    ensures written <==> |w.items| == |examples| + 1
    ensures w.outcome.Completed? ==> |w.items| <= |examples| + 1
  {
    ConversionsAt(images, decode, |images.filenames|, i);
    var decoded := decode(images.filenames[i]);
    if decoded.None? {
      return Written(examples, Completed), false;
    }
    var example := ImageExample(images, i, decoded.value);
    if example.Err? {
      return Written(examples, Stopped(example.failure)), false;
    }
    return Written(examples + [example.value], Completed), true;
  }

  /** The decodable files of the first s shards' ranges. */
  function DecodedInShards(shardRanges: seq<int>, filenames: seq<string>, decode: Decoder, s: nat): nat
    requires s < |shardRanges| && ShardRangesFit(shardRanges, |filenames|)
  {
    if s == 0 then 0
    else DecodedInShards(shardRanges, filenames, decode, s - 1)
         + DecodableCount(filenames, shardRanges[s - 1], shardRanges[s], decode)
  }

  /** Each image written is counted once: a thread's counter is at most the
      number of decodable files in its shards' ranges, and exactly that number
      when no Example is refused. */
  lemma {:induction false} CounterCountsDecoded(target: Target, first: nat, shardRanges: seq<int>,
                                                images: ImageList, decode: Decoder, s: nat)
    requires images.Consistent() && s < |shardRanges| && ShardRangesFit(shardRanges, |images.filenames|)
    ensures CountExamples(ThreadFiles(target, first, shardRanges, images, decode, s).items)
            <= DecodedInShards(shardRanges, images.filenames, decode, s)
    ensures ThreadFiles(target, first, shardRanges, images, decode, s).outcome.Completed? ==>
              CountExamples(ThreadFiles(target, first, shardRanges, images, decode, s).items)
              == DecodedInShards(shardRanges, images.filenames, decode, s)
  {
    if s > 0 {
      CounterCountsDecoded(target, first, shardRanges, images, decode, s - 1);
      var before := ThreadFiles(target, first, shardRanges, images, decode, s - 1);
      if before.outcome.Completed? {
        var w := ShardExamples(images, shardRanges[s - 1], shardRanges[s], decode);
        ThreadFilesStep(target, first, shardRanges, images, decode, s - 1, before.items, w,
                        ShardFile(first + s - 1, w.items));
      }
    }
  }

  /** Two threads of the same run never write the same shard. */
  lemma ThreadsWriteDisjointShards(target: Target, k: nat, t1: nat, r1: seq<int>, t2: nat, r2: seq<int>,
                                   images: ImageList, decode: Decoder, s1: nat, s2: nat)
    requires images.Consistent() && |r1| == k + 1 && |r2| == k + 1
    requires ShardRangesFit(r1, |images.filenames|) && ShardRangesFit(r2, |images.filenames|)
    requires t1 != t2
    requires s1 < |ThreadFiles(target, FirstShard(t1, k), r1, images, decode, k).items|
    requires s2 < |ThreadFiles(target, FirstShard(t2, k), r2, images, decode, k).items|
    ensures ThreadFiles(target, FirstShard(t1, k), r1, images, decode, k).items[s1].shard
         != ThreadFiles(target, FirstShard(t2, k), r2, images, decode, k).items[s2].shard
  {
    ThreadFilesShards(target, FirstShard(t1, k), r1, images, decode, k);
    ThreadFilesShards(target, FirstShard(t2, k), r2, images, decode, k);
    ThreadsDisjoint(t1, s1, t2, s2, k);
  }

  /** ... and so never the same file. */
  lemma ThreadsWriteDisjointFiles(target: Target, k: nat, t1: nat, r1: seq<int>, t2: nat, r2: seq<int>,
                                  images: ImageList, decode: Decoder, s1: nat, s2: nat)
    requires images.Consistent() && |r1| == k + 1 && |r2| == k + 1
    requires ShardRangesFit(r1, |images.filenames|) && ShardRangesFit(r2, |images.filenames|)
    requires t1 != t2
    requires s1 < |ThreadFiles(target, FirstShard(t1, k), r1, images, decode, k).items|
    requires s2 < |ThreadFiles(target, FirstShard(t2, k), r2, images, decode, k).items|
    ensures ThreadFiles(target, FirstShard(t1, k), r1, images, decode, k).items[s1].Path(target)
         != ThreadFiles(target, FirstShard(t2, k), r2, images, decode, k).items[s2].Path(target)
  {
    var f1 := ThreadFiles(target, FirstShard(t1, k), r1, images, decode, k).items[s1];
    var f2 := ThreadFiles(target, FirstShard(t2, k), r2, images, decode, k).items[s2];
    ThreadsWriteDisjointShards(target, k, t1, r1, t2, r2, images, decode, s1, s2);
    ShardPathsDistinct(target.outputDir, target.name, f1.shard, f2.shard, target.numShards);
  }

  /** Every shard j of a run whose thread is not stopped by a refused Example is
      written: by thread j / k, as its shard file j % k. */
  lemma EveryShardWritten(target: Target, k: nat, rangesOf: seq<seq<int>>, images: ImageList, decode: Decoder,
                          j: nat)
    requires images.Consistent() && j < |rangesOf| * k
    requires forall t :: 0 <= t < |rangesOf| ==>
               |rangesOf[t]| == k + 1 && ShardRangesFit(rangesOf[t], |images.filenames|)
    ensures k > 0 && j / k < |rangesOf| && j % k < k
    ensures var w := ThreadFiles(target, FirstShard(j / k, k), rangesOf[j / k], images, decode, k);
            w.outcome.Completed? ==> j % k < |w.items| && w.items[j % k].shard == j
  {
    ShardOwner(j, |rangesOf|, k);
    ThreadFilesShards(target, FirstShard(j / k, k), rangesOf[j / k], images, decode, k);
  }

  /** `_process_image_files` as written: the length checks, then the undefined
      `FLAGS` when the thread count is read; it never returns. */
  function ProcessImageFiles(name: string, images: ImageList, numShards: nat): (r: Result<()>)
    ensures !images.Consistent() ==> r == Err(AssertionFailed)
    ensures images.Consistent() ==> r == Err(Defect)
  {
    if |images.filenames| != |images.texts| || |images.filenames| != |images.labels| then Err(AssertionFailed)
    else Err(Defect)
  }

  /** The shard ranges of every thread fit the thread and shard counts and the file list. */
  predicate ThreadSplitFits(ranges: seq<(int, int)>, shardRangesOf: seq<seq<int>>, numShards: nat, count: nat) {
    && |shardRangesOf| == |ranges|
    && forall t :: 0 <= t < |ranges| ==>
         RangesMatch(shardRangesOf[t], numShards, |ranges|) && ShardRangesFit(shardRangesOf[t], count)
  }

  /** `_process_image_files` with the output directory as an argument and the
      thread split (computed by `linspace` in the source) given: one batch per
      thread. An exception in a thread ends only that thread, so each thread's
      batch is returned on its own. */
  method ProcessImageFilesWith(target: Target, decode: Decoder, ranges: seq<(int, int)>,
                               shardRangesOf: seq<seq<int>>, images: ImageList)
    returns (r: Result<seq<Batch>>)
    requires ThreadSplitFits(ranges, shardRangesOf, target.numShards, |images.filenames|)
    ensures !images.Consistent() ==> r == Err(AssertionFailed)
    ensures images.Consistent() ==>
              && r.Ok? && |r.value| == |ranges|
              && forall t :: 0 <= t < |ranges| ==>
                   r.value[t] == BatchResult(target, decode, t, |ranges|, shardRangesOf[t], images)
  {
    if |images.filenames| != |images.texts| || |images.filenames| != |images.labels| {
      return Err(AssertionFailed);
    }
    var batches: seq<Batch> := [];
    var t := 0;
    while t < |ranges|
      invariant 0 <= t <= |ranges| && |batches| == t
      invariant forall u :: 0 <= u < t ==>
                  batches[u] == BatchResult(target, decode, u, |ranges|, shardRangesOf[u], images)
    {
      var batch := ProcessImageFilesBatchInto(target, decode, t, ranges, shardRangesOf[t], images);
      batches := batches + [batch];
      t := t + 1;
    }
    return Ok(batches);
  }
}
