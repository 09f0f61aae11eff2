/** The object-store key under which a validated file is uploaded:
    `<prefix>/<dataset>/year=<Y>/month=<MM>/day=<DD>/<base name>`, and the
    upload step that returns it. */
module UploadKey {
  import opened Decimal
  import opened Paths
  import opened IngestErrors
  import Config

  /** A calendar date as `datetime.today()` gives it (local time). */
  datatype Date = Date(year: nat, month: nat, day: nat)

  predicate IsCalendarDate(d: Date) {
    1 <= d.year <= 9999 && 1 <= d.month <= 12 && 1 <= d.day <= 31
  }

  datatype Option<+T> = None | Some(value: T)

  /** What a key says: where it lives, which dataset, which day, which file. */
  datatype KeyParts = KeyParts(prefix: string, dataset: string, date: Date, filename: string)

  /** The key formatted by the f-string of `upload_to_s3`: the year unpadded,
      month and day zero-padded to two digits, then the file's base name. */
  function Key(prefix: string, dataset: string, today: Date, path: string): (key: string)
    ensures Basename(key) == Basename(path)
  {
    var dir := prefix + "/" + dataset + "/year=" + Render(today.year)
      + "/month=" + Pad2(today.month) + "/day=" + Pad2(today.day);
    BasenameUnder(dir, Basename(path));
    dir + "/" + Basename(path)
  }

  /** The value of a `tag=digits` segment whose digits number `width`
      (any positive number of digits when `width` is 0). */
  function Field(tag: string, segment: string, width: nat): Option<nat>
  {
    if |tag| < |segment| && segment[..|tag|] == tag && AllDigits(segment[|tag|..])
       && (width == 0 || |segment| == |tag| + width)
    then Some(Value(segment[|tag|..]))
    else None
  }

  /** Reads a key back into its parts; None for anything not laid out as
      six '/'-separated segments with year, two-digit month and two-digit day. */
  function ParseKey(key: string): Option<KeyParts>
  {
    var segs := Split(key);
    if |segs| != 6 then None
    else
      match (Field("year=", segs[2], 0), Field("month=", segs[3], 2), Field("day=", segs[4], 2))
      case (Some(y), Some(m), Some(d)) => Some(KeyParts(segs[0], segs[1], Date(y, m, d), segs[5]))
      case _ => None
  }

  lemma FieldOf(tag: string, digits: string, width: nat, n: nat)
    requires 1 <= |digits| && AllDigits(digits) && Value(digits) == n
    requires width == 0 || |digits| == width
    ensures Field(tag, tag + digits, width) == Some(n)
  {
  }

  /** The six segments of a key, in order. */
  function Segments(prefix: string, dataset: string, today: Date, path: string): seq<string>
  {
    [prefix, dataset, "year=" + Render(today.year), "month=" + Pad2(today.month),
     "day=" + Pad2(today.day), Basename(path)]
  }

  lemma JoinSix(a: string, b: string, c: string, d: string, e: string, f: string)
    ensures Join([a, b, c, d, e, f]) == a + "/" + b + "/" + c + "/" + d + "/" + e + "/" + f
  {
    var s := [a, b, c, d, e, f];
    assert s[5..] == [f];
    assert s[4..][1..] == s[5..];
    assert Join(s[4..]) == e + "/" + f;
    assert s[3..][1..] == s[4..];
    assert Join(s[3..]) == d + "/" + (e + "/" + f);
    assert s[2..][1..] == s[3..];
    assert Join(s[2..]) == c + "/" + (d + "/" + (e + "/" + f));
    assert s[1..][1..] == s[2..];
    assert Join(s[1..]) == b + "/" + (c + "/" + (d + "/" + (e + "/" + f)));
    assert Join(s) == a + "/" + (b + "/" + (c + "/" + (d + "/" + (e + "/" + f))));
  }

  lemma Regroup(x: string, t: string, v: string)
    ensures x + "/" + (t + v) == x + ("/" + t) + v
  {
  }

  lemma JoinText(p: string, ds: string, y: string, m: string, d: string, b: string)
    ensures Join([p, ds, "year=" + y, "month=" + m, "day=" + d, b])
         == p + "/" + ds + "/year=" + y + "/month=" + m + "/day=" + d + "/" + b
  {
    JoinSix(p, ds, "year=" + y, "month=" + m, "day=" + d, b);
    var x1 := p + "/" + ds;
    Regroup(x1, "year=", y);
    assert "/" + "year=" == "/year=";
    var x2 := x1 + "/year=" + y;
    Regroup(x2, "month=", m);
    assert "/" + "month=" == "/month=";
    var x3 := x2 + "/month=" + m;
    Regroup(x3, "day=", d);
    assert "/" + "day=" == "/day=";
  }

  lemma KeyIsJoin(prefix: string, dataset: string, today: Date, path: string)
    ensures Key(prefix, dataset, today, path) == Join(Segments(prefix, dataset, today, path))
  {
    JoinText(prefix, dataset, Render(today.year), Pad2(today.month), Pad2(today.day), Basename(path));
  }

  lemma SplitText(p: string, ds: string, y: string, m: string, d: string, b: string)
    requires NoSlash(p) && NoSlash(ds) && NoSlash(b)
    requires AllDigits(y) && AllDigits(m) && AllDigits(d)
    ensures Split(Join([p, ds, "year=" + y, "month=" + m, "day=" + d, b]))
         == [p, ds, "year=" + y, "month=" + m, "day=" + d, b]
  {
    var segs := [p, ds, "year=" + y, "month=" + m, "day=" + d, b];
    forall i | 0 <= i < 6 ensures NoSlash(segs[i]) {
      if 2 <= i <= 4 {
        var k := if i == 2 then 5 else if i == 3 then 6 else 4;
        forall j | 0 <= j < |segs[i]| ensures segs[i][j] != '/' {
          if k <= j { assert IsDigit(segs[i][j]); }
        }
      }
    }
    SplitJoin(segs);
  }

  /** Any six segments laid out as a key parse back to themselves. */
  lemma ParseJoin(p: string, ds: string, y: string, m: string, d: string, b: string)
    requires NoSlash(p) && NoSlash(ds) && NoSlash(b)
    requires AllDigits(y) && AllDigits(m) && AllDigits(d)
    requires 1 <= |y| && |m| == 2 && |d| == 2
    ensures ParseKey(Join([p, ds, "year=" + y, "month=" + m, "day=" + d, b]))
         == Some(KeyParts(p, ds, Date(Value(y), Value(m), Value(d)), b))
  {
    SplitText(p, ds, y, m, d, b);
    FieldOf("year=", y, 0, Value(y));
    FieldOf("month=", m, 2, Value(m));
    FieldOf("day=", d, 2, Value(d));
  }

  /** The key reads back as the prefix, dataset, date and base name it was
      built from, provided prefix and dataset are single segments. */
  lemma KeyRoundTrip(prefix: string, dataset: string, today: Date, path: string)
    requires NoSlash(prefix) && NoSlash(dataset) && IsCalendarDate(today)
    ensures ParseKey(Key(prefix, dataset, today, path))
         == Some(KeyParts(prefix, dataset, today, Basename(path)))
  {
    KeyIsJoin(prefix, dataset, today, path);
    ParseJoin(prefix, dataset, Render(today.year), Pad2(today.month), Pad2(today.day), Basename(path));
    RenderValue(today.year);
    Pad2Value(today.month);
    Pad2Value(today.day);
  }

  /** Split on '/', the key is exactly its six segments: the month and day
      segments are `month=` and `day=` followed by two digits, and the last
      segment is the base name. */
  lemma KeySegments(prefix: string, dataset: string, today: Date, path: string)
    requires NoSlash(prefix) && NoSlash(dataset)
    ensures Split(Key(prefix, dataset, today, path)) == Segments(prefix, dataset, today, path)
  {
    KeyIsJoin(prefix, dataset, today, path);
    SplitText(prefix, dataset, Render(today.year), Pad2(today.month), Pad2(today.day), Basename(path));
  }

  /** Equal keys mean the same dataset, the same day and the same base name:
      files of different days never share a key. */
  lemma KeyInjective(dataset1: string, today1: Date, path1: string,
                     dataset2: string, today2: Date, path2: string, prefix: string)
    requires NoSlash(prefix) && NoSlash(dataset1) && NoSlash(dataset2)
    requires IsCalendarDate(today1) && IsCalendarDate(today2)
    requires Key(prefix, dataset1, today1, path1) == Key(prefix, dataset2, today2, path2)
    ensures dataset1 == dataset2 && today1 == today2 && Basename(path1) == Basename(path2)
  {
    KeyRoundTrip(prefix, dataset1, today1, path1);
    KeyRoundTrip(prefix, dataset2, today2, path2);
  }

  /** The configured prefix is a single key segment. */
  lemma PrefixIsOneSegment()
    ensures NoSlash(Config.S3Prefix)
  {
  }

  /** `upload_to_s3`: build the key for today's date, then transfer the file;
      `transferOk` stands for the outcome of the boto3 transfer. */
  function UploadToS3(path: string, bucket: string, dataset: string, today: Date,
                      transferOk: bool): (r: Result<string>)
    ensures r.Ok? <==> transferOk
    ensures r.Ok? ==> r.value == Key(Config.S3Prefix, dataset, today, path)
    ensures NoSlash(dataset) && IsCalendarDate(today) && r.Ok? ==>
      ParseKey(r.value) == Some(KeyParts(Config.S3Prefix, dataset, today, Basename(path)))
    ensures r.Err? ==> r.error == UploadFailed(bucket, Key(Config.S3Prefix, dataset, today, path))
  {
    var key := Key(Config.S3Prefix, dataset, today, path);
    var r := if transferOk then Ok(key) else Err(UploadFailed(bucket, key));
    if NoSlash(dataset) && IsCalendarDate(today) then
      PrefixIsOneSegment();
      KeyRoundTrip(Config.S3Prefix, dataset, today, path); r
    else r
  }
}
