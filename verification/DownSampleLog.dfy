/**
  The log record of a finished down-sample task: which files were replaced by which.
  Encoding and decoding are inverse to each other in both directions.
 */
module DownSampleLog {
  import opened Options
  import opened Multiples

  type Byte = x: int | 0 <= x < 256
  type Text = seq<Byte>

  /** Unsigned numbers of `n` bytes, the highest byte first. */
  function Power(n: nat): nat {
    if n == 0 then 1 else 256 * Power(n - 1)
  }

  function Encode(n: nat, v: nat): seq<Byte> {
    if n == 0 then [] else Encode(n - 1, v / 256) + [v % 256]
  }

  function Decode(bs: seq<Byte>): nat {
    if bs == [] then 0 else 256 * Decode(bs[..|bs| - 1]) + bs[|bs| - 1]
  }

  lemma {:induction false} DecodeEncode(n: nat, v: nat)
    requires v < Power(n)
    ensures |Encode(n, v)| == n && Decode(Encode(n, v)) == v
  {
    if n > 0 {
      DecodeEncode(n - 1, v / 256);
      var e := Encode(n, v);
      assert e[..n - 1] == Encode(n - 1, v / 256);
    }
  }

  lemma {:induction false} EncodeDecode(bs: seq<Byte>)
    ensures Decode(bs) < Power(|bs|) && Encode(|bs|, Decode(bs)) == bs
  {
    if bs != [] {
      EncodeDecode(bs[..|bs| - 1]);
    }
  }

  /** Signed 64-bit numbers: the sign goes to the lowest bit. */
  const HALF := 0x8000_0000_0000_0000

  function ZigZag(v: int): nat {
    if v >= 0 then 2 * v else -2 * v - 1
  }

  function UnZigZag(u: nat): int {
    if u % 2 == 0 then u / 2 else -(u / 2) - 1
  }

  datatype Info = Info(taskID: nat, level: int, names: seq<Text>, oldFiles: seq<seq<Text>>, newFiles: seq<seq<Text>>)

  function Length(n: nat): seq<Byte> {
    Encode(2, n % 65536)
  }

  function TextBytes(t: Text): seq<Byte> {
    Length(|t|) + t
  }

  /** Texts and groups of texts after each other, each with its length. */
  function TextsBytes(ts: seq<Text>): seq<Byte> {
    if ts == [] then [] else TextBytes(ts[0]) + TextsBytes(ts[1..])
  }

  function GroupBytes(ts: seq<Text>): seq<Byte> {
    Length(|ts|) + TextsBytes(ts)
  }

  function GroupsBytes(gs: seq<seq<Text>>): seq<Byte> {
    if gs == [] then [] else GroupBytes(gs[0]) + GroupsBytes(gs[1..])
  }

  function Body(info: Info): seq<Byte> {
    Encode(8, info.taskID) + Encode(8, ZigZag(info.level)) + GroupBytes(info.names)
    + (Length(|info.oldFiles|) + GroupsBytes(info.oldFiles)) + (Length(|info.newFiles|) + GroupsBytes(info.newFiles))
  }

  /** The numbers are 64 bits wide and all lengths fit into 16 bits. */
  predicate FitsText(t: Text) {
    |t| < 65536
  }

  predicate FitsGroup(ts: seq<Text>) {
    |ts| < 65536 && forall i :: 0 <= i < |ts| ==> FitsText(ts[i])
  }

  predicate FitsGroups(gs: seq<seq<Text>>) {
    |gs| < 65536 && forall i :: 0 <= i < |gs| ==> FitsGroup(gs[i])
  }

  predicate Fits(info: Info) {
    && info.taskID < Power(8) && -HALF <= info.level < HALF
    && FitsGroup(info.names) && FitsGroups(info.oldFiles) && FitsGroups(info.newFiles)
  }

  /** Reading a number, a text, `n` texts, a group, `n` groups and a whole record off the
      front; None where the input is too short. */
  function ReadNumber(n: nat, src: seq<Byte>): Option<(nat, seq<Byte>)> {
    if |src| < n then None else Some((Decode(src[..n]), src[n..]))
  }

  function ReadText(src: seq<Byte>): Option<(Text, seq<Byte>)> {
    match ReadNumber(2, src)
    case None => None
    case Some((l, rest)) => if |rest| < l then None else Some((rest[..l], rest[l..]))
  }

  function ReadTexts(n: nat, src: seq<Byte>): Option<(seq<Text>, seq<Byte>)> {
    if n == 0 then Some(([], src))
    else
      match ReadText(src)
      case None => None
      case Some((t, rest)) =>
        match ReadTexts(n - 1, rest)
        case None => None
        case Some((ts, end)) => Some(([t] + ts, end))
  }

  function ReadGroup(src: seq<Byte>): Option<(seq<Text>, seq<Byte>)> {
    match ReadNumber(2, src)
    case None => None
    case Some((l, rest)) => ReadTexts(l, rest)
  }

  function ReadGroups(n: nat, src: seq<Byte>): Option<(seq<seq<Text>>, seq<Byte>)> {
    if n == 0 then Some(([], src))
    else
      match ReadGroup(src)
      case None => None
      case Some((g, rest)) =>
        match ReadGroups(n - 1, rest)
        case None => None
        case Some((gs, end)) => Some(([g] + gs, end))
  }

  function ReadFiles(src: seq<Byte>): Option<(seq<seq<Text>>, seq<Byte>)> {
    match ReadNumber(2, src)
    case None => None
    case Some((l, rest)) => ReadGroups(l, rest)
  }

  function Parse(src: seq<Byte>): Option<(Info, seq<Byte>)> {
    match ReadNumber(8, src)
    case None => None
    case Some((taskID, s1)) =>
      match ReadNumber(8, s1)
      case None => None
      case Some((level, s2)) =>
        match ReadGroup(s2)
        case None => None
        case Some((names, s3)) =>
          match ReadFiles(s3)
          case None => None
          case Some((oldFiles, s4)) =>
            match ReadFiles(s4)
            case None => None
            case Some((newFiles, s5)) => Some((Info(taskID, UnZigZag(level), names, oldFiles, newFiles), s5))
  }

  // what was written is read back

  lemma NumberRead(n: nat, v: nat, rest: seq<Byte>)
    requires v < Power(n)
    ensures ReadNumber(n, Encode(n, v) + rest) == Some((v, rest))
  {
    DecodeEncode(n, v);
    assert (Encode(n, v) + rest)[..n] == Encode(n, v) && (Encode(n, v) + rest)[n..] == rest;
  }

  lemma PowerTwo()
    ensures Power(2) == 65536
  {
    assert Power(1) == 256;
  }

  lemma LengthRead(n: nat, rest: seq<Byte>)
    requires n < 65536
    ensures ReadNumber(2, Length(n) + rest) == Some((n, rest))
  {
    hide Power, Encode, ReadNumber;
    PowerTwo();
    NumberRead(2, n, rest);
  }

  lemma TextRead(t: Text, rest: seq<Byte>)
    requires FitsText(t)
    ensures ReadText(TextBytes(t) + rest) == Some((t, rest))
  {
    hide Length, ReadNumber;
    LengthRead(|t|, t + rest);
    assert TextBytes(t) + rest == Length(|t|) + (t + rest);
    assert (t + rest)[..|t|] == t && (t + rest)[|t|..] == rest;
  }

  lemma {:induction false} TextsRead(ts: seq<Text>, rest: seq<Byte>)
    requires forall i :: 0 <= i < |ts| ==> FitsText(ts[i])
    ensures ReadTexts(|ts|, TextsBytes(ts) + rest) == Some((ts, rest))
  {
    hide TextBytes, ReadText;
    if ts == [] {
      assert [] + rest == rest;
    } else {
      TextsRead(ts[1..], rest);
      TextRead(ts[0], TextsBytes(ts[1..]) + rest);
      assert TextsBytes(ts) + rest == TextBytes(ts[0]) + (TextsBytes(ts[1..]) + rest);
      assert [ts[0]] + ts[1..] == ts;
    }
  }

  lemma GroupRead(ts: seq<Text>, rest: seq<Byte>)
    requires FitsGroup(ts)
    ensures ReadGroup(GroupBytes(ts) + rest) == Some((ts, rest))
  {
    hide Length, ReadNumber, TextsBytes, ReadTexts;
    LengthRead(|ts|, TextsBytes(ts) + rest);
    TextsRead(ts, rest);
    assert GroupBytes(ts) + rest == Length(|ts|) + (TextsBytes(ts) + rest);
  }

  lemma {:induction false} GroupsRead(gs: seq<seq<Text>>, rest: seq<Byte>)
    requires forall i :: 0 <= i < |gs| ==> FitsGroup(gs[i])
    ensures ReadGroups(|gs|, GroupsBytes(gs) + rest) == Some((gs, rest))
  {
    hide GroupBytes, ReadGroup, FitsGroup;
    if gs == [] {
      assert [] + rest == rest;
    } else {
      GroupsRead(gs[1..], rest);
      GroupRead(gs[0], GroupsBytes(gs[1..]) + rest);
      assert GroupsBytes(gs) + rest == GroupBytes(gs[0]) + (GroupsBytes(gs[1..]) + rest);
      assert [gs[0]] + gs[1..] == gs;
    }
  }

  lemma FilesRead(gs: seq<seq<Text>>, rest: seq<Byte>)
    requires FitsGroups(gs)
    ensures ReadFiles(Length(|gs|) + GroupsBytes(gs) + rest) == Some((gs, rest))
  {
    hide Length, ReadNumber, GroupsBytes, ReadGroups, FitsGroup;
    LengthRead(|gs|, GroupsBytes(gs) + rest);
    GroupsRead(gs, rest);
    assert Length(|gs|) + GroupsBytes(gs) + rest == Length(|gs|) + (GroupsBytes(gs) + rest);
  }

  lemma ZigZagBack(v: int)
    requires -HALF <= v < HALF
    ensures ZigZag(v) < Power(8) && UnZigZag(ZigZag(v)) == v
  {
    PowerEight();
  }

  lemma PowerEight()
    ensures Power(8) == 2 * HALF
  {
    PowerTwo();
    assert Power(4) == 0x1_0000_0000;
    assert Power(6) == 0x1_0000_0000_0000;
  }

  /** A record is read back with whatever follows it, if its lengths fit. */
  lemma ParseBody(info: Info, rest: seq<Byte>)
    requires Fits(info)
    ensures Parse(Body(info) + rest) == Some((info, rest))
  {
    hide Length, ReadNumber, GroupBytes, GroupsBytes, ReadGroup, ReadFiles, Encode, Power, FitsGroup, FitsGroups;
    var r4 := Length(|info.newFiles|) + GroupsBytes(info.newFiles) + rest;
    var r3 := Length(|info.oldFiles|) + GroupsBytes(info.oldFiles) + r4;
    var r2 := GroupBytes(info.names) + r3;
    var r1 := Encode(8, ZigZag(info.level)) + r2;
    ZigZagBack(info.level);
    NumberRead(8, info.taskID, r1);
    NumberRead(8, ZigZag(info.level), r2);
    GroupRead(info.names, r3);
    FilesRead(info.oldFiles, r4);
    FilesRead(info.newFiles, rest);
    assert Body(info) + rest == Encode(8, info.taskID) + r1;
  }

  // what was read is what had been written

  lemma NumberWritten(n: nat, src: seq<Byte>)
    requires n <= |src|
    ensures Decode(src[..n]) < Power(n) && Encode(n, Decode(src[..n])) + src[n..] == src
  {
    EncodeDecode(src[..n]);
  }

  lemma LengthWritten(src: seq<Byte>)
    requires ReadNumber(2, src).Some?
    ensures var (l, rest) := ReadNumber(2, src).value; l < 65536 && Length(l) + rest == src && |src| == 2 + |rest|
  {
    hide Power, Encode, Decode;
    PowerTwo();
    NumberWritten(2, src);
  }

  lemma TextWritten(src: seq<Byte>)
    requires ReadText(src).Some?
    ensures var (t, rest) := ReadText(src).value; FitsText(t) && TextBytes(t) + rest == src && |src| >= 2 + |rest|
  {
    hide ReadNumber, Length;
    LengthWritten(src);
    var (l, r) := ReadNumber(2, src).value;
    assert r[..l] + r[l..] == r;
  }

  lemma {:induction false} TextsWritten(n: nat, src: seq<Byte>)
    requires ReadTexts(n, src).Some?
    ensures var (ts, rest) := ReadTexts(n, src).value;
            && |ts| == n && (forall i :: 0 <= i < n ==> FitsText(ts[i]))
            && TextsBytes(ts) + rest == src && |src| >= 2 * n + |rest|
  {
    hide ReadText, TextBytes;
    if n > 0 {
      TextWritten(src);
      var (t, r) := ReadText(src).value;
      TextsWritten(n - 1, r);
      var (ts, rest) := ReadTexts(n - 1, r).value;
      assert ([t] + ts)[1..] == ts;
      assert TextsBytes([t] + ts) + rest == TextBytes(t) + (TextsBytes(ts) + rest);
    }
  }

  lemma GroupWritten(src: seq<Byte>)
    requires ReadGroup(src).Some?
    ensures var (ts, rest) := ReadGroup(src).value; FitsGroup(ts) && GroupBytes(ts) + rest == src && |src| >= 2 + |rest|
  {
    hide ReadNumber, Length, ReadTexts, TextsBytes;
    LengthWritten(src);
    var (l, r) := ReadNumber(2, src).value;
    TextsWritten(l, r);
    var (ts, rest) := ReadTexts(l, r).value;
    assert GroupBytes(ts) + rest == Length(l) + (TextsBytes(ts) + rest);
  }

  lemma {:induction false} GroupsWritten(n: nat, src: seq<Byte>)
    requires ReadGroups(n, src).Some?
    ensures var (gs, rest) := ReadGroups(n, src).value;
            && |gs| == n && (forall i :: 0 <= i < n ==> FitsGroup(gs[i]))
            && GroupsBytes(gs) + rest == src && |src| >= |rest|
  {
    hide ReadGroup, GroupBytes, FitsGroup;
    if n > 0 {
      GroupWritten(src);
      var (g, r) := ReadGroup(src).value;
      GroupsWritten(n - 1, r);
      var (gs, rest) := ReadGroups(n - 1, r).value;
      assert ([g] + gs)[1..] == gs;
      assert GroupsBytes([g] + gs) + rest == GroupBytes(g) + (GroupsBytes(gs) + rest);
    }
  }

  lemma FilesWritten(src: seq<Byte>)
    requires ReadFiles(src).Some?
    ensures var (gs, rest) := ReadFiles(src).value;
            FitsGroups(gs) && Length(|gs|) + GroupsBytes(gs) + rest == src && |src| >= 2 + |rest|
  {
    hide ReadNumber, Length, ReadGroups, GroupsBytes, FitsGroup;
    LengthWritten(src);
    var (l, r) := ReadNumber(2, src).value;
    GroupsWritten(l, r);
    var (gs, rest) := ReadGroups(l, r).value;
    assert Length(l) + GroupsBytes(gs) + rest == Length(l) + (GroupsBytes(gs) + rest);
  }

  lemma UnZigZagBack(u: nat)
    requires u < Power(8)
    ensures -HALF <= UnZigZag(u) < HALF && ZigZag(UnZigZag(u)) == u
  {
    PowerEight();
  }

  /** Whatever can be read is a record whose lengths fit, and writing it again gives
      back the input. */
  lemma BodyParse(src: seq<Byte>)
    requires Parse(src).Some?
    ensures var (info, rest) := Parse(src).value; Fits(info) && Body(info) + rest == src && |src| >= 22 + |rest|
  {
    hide Length, GroupBytes, GroupsBytes, ReadGroup, ReadFiles, Encode, Decode, Power, FitsGroup, FitsGroups;
    var (taskID, s1) := ReadNumber(8, src).value;
    NumberWritten(8, src);
    var (level, s2) := ReadNumber(8, s1).value;
    NumberWritten(8, s1);
    UnZigZagBack(level);
    GroupWritten(s2);
    var (names, s3) := ReadGroup(s2).value;
    FilesWritten(s3);
    var (oldFiles, s4) := ReadFiles(s3).value;
    FilesWritten(s4);
    var (newFiles, s5) := ReadFiles(s4).value;
    WrittenTogether(src, s1, s2, s3, s4, s5, Parse(src).value.0);
  }

  lemma WrittenTogether(src: seq<Byte>, s1: seq<Byte>, s2: seq<Byte>, s3: seq<Byte>, s4: seq<Byte>, s5: seq<Byte>,
                        info: Info)
    requires src == Encode(8, info.taskID) + s1 && s1 == Encode(8, ZigZag(info.level)) + s2
          && s2 == GroupBytes(info.names) + s3
    requires s3 == Length(|info.oldFiles|) + GroupsBytes(info.oldFiles) + s4
          && s4 == Length(|info.newFiles|) + GroupsBytes(info.newFiles) + s5
    ensures Body(info) + s5 == src
  {
    hide Length, GroupBytes, GroupsBytes, Encode;
  }

  /** A record is read back unchanged exactly if its lengths and numbers fit. */
  lemma RoundTrip(info: Info, rest: seq<Byte>)
    ensures Parse(Body(info) + rest) == Some((info, rest)) <==> Fits(info)
  {
    hide Parse, Body, Fits;
    if Fits(info) {
      ParseBody(info, rest);
    }
    if Parse(Body(info) + rest) == Some((info, rest)) {
      BodyParse(Body(info) + rest);
    }
  }

  /** Numbers are written with the most significant byte first. */
  lemma {:induction false} MostSignificantFirst(n: nat, v: nat, i: nat)
    requires i < n
    ensures |Encode(n, v)| == n && Power(n - 1 - i) > 0 && Encode(n, v)[i] == v / Power(n - 1 - i) % 256
  {
    PowerPositive(n - 1 - i);
    EncodeLength(n, v);
    if i < n - 1 {
      MostSignificantFirst(n - 1, v / 256, i);
      DivideTwice(v, Power(n - 2 - i));
    }
  }

  lemma {:induction false} PowerPositive(n: nat)
    ensures Power(n) > 0
  {
    if n > 0 {
      PowerPositive(n - 1);
    }
  }

  lemma {:induction false} EncodeLength(n: nat, v: nat)
    ensures |Encode(n, v)| == n
  {
    if n > 0 {
      EncodeLength(n - 1, v / 256);
    }
  }

  lemma DivideTwice(v: nat, b: nat)
    requires b > 0
    ensures v / 256 / b == v / (256 * b)
  {
    var q, r := v / 256, v % 256;
    var s, t := q / b, q % b;
    Recompose(b, s, t);
    QuotRem(v, 256 * b, s, 256 * t + r);
  }

  lemma Recompose(b: nat, s: nat, t: nat)
    requires b > 0
    ensures 256 * (b * s + t) == 256 * b * s + 256 * t
  {
  }

  lemma ShortLength(n: nat)
    requires n < 256
    ensures Length(n) == [0, n]
  {
    assert Encode(1, n / 256) == Encode(0, 0) + [0];
  }

  lemma EightBytes(v: nat)
    requires v < 256
    ensures Encode(8, v) == [0, 0, 0, 0, 0, 0, 0, v]
  {
    Zeros();
    assert Encode(8, v) == Encode(7, 0) + [v];
  }

  lemma OneZeroMore(n: nat)
    ensures Encode(0, 0) == [] && Encode(n + 1, 0) == Encode(n, 0) + [0]
  {
  }

  lemma Zeros()
    ensures Encode(7, 0) == [0, 0, 0, 0, 0, 0, 0]
  {
    hide Encode;
    OneZeroMore(0);
    OneZeroMore(1);
    OneZeroMore(2);
    OneZeroMore(3);
    OneZeroMore(4);
    OneZeroMore(5);
    OneZeroMore(6);
  }

  /** Task 7 at level -1 for the measurement "a" with the old file "b" and the new file "c",
      byte by byte: two numbers of eight bytes, the second one zigzag, then each list with
      its length in two bytes. */
  lemma BytesOfRecord(info: Info)
    requires info == Info(7, -1, [[97]], [[[98]]], [[[99]]])
    ensures Body(info)
         == [0, 0, 0, 0, 0, 0, 0, 7] + [0, 0, 0, 0, 0, 0, 0, 1] + [0, 1, 0, 1, 97]
            + [0, 1, 0, 1, 0, 1, 98] + [0, 1, 0, 1, 0, 1, 99]
  {
    hide Encode, Length;
    EightBytes(7);
    EightBytes(1);
    ShortLength(1);
    OneGroup([97]);
    OneGroup([98]);
    OneGroup([99]);
    assert [[[98]]][1..] == [] && [[[99]]][1..] == [];
  }

  lemma OneGroup(t: Text)
    requires |t| == 1
    ensures GroupBytes([t]) == [0, 1, 0, 1] + t
  {
    hide Length;
    ShortLength(1);
    assert [t][1..] == [];
    assert TextsBytes([t]) == TextBytes(t) + TextsBytes([]);
    assert TextBytes(t) + [] == [0, 1] + t;
    assert [0, 1] + ([0, 1] + t) == [0, 1, 0, 1] + t;
  }

  /** A file name of 65536 bytes: its length is written as 0. */
  lemma LongNameIsNotReadBack(name: Text, rest: seq<Byte>)
    requires |name| == 65536
    ensures var info := Info(0, 0, [name], [], []); Parse(Body(info) + rest) != Some((info, rest))
  {
    hide Parse, Body;
    var info := Info(0, 0, [name], [], []);
    RoundTrip(info, rest);
    assert !FitsText(info.names[0]);
  }

  lemma {:induction false} TextsBytesSnoc(ts: seq<Text>, t: Text)
    ensures TextsBytes(ts + [t]) == TextsBytes(ts) + TextBytes(t)
  {
    hide TextBytes;
    if ts == [] {
      assert ([] + [t])[1..] == [] && [] + TextBytes(t) == TextBytes(t) + [];
    } else {
      TextsBytesSnoc(ts[1..], t);
      assert (ts + [t])[1..] == ts[1..] + [t];
    }
  }

  lemma {:induction false} GroupsBytesSnoc(gs: seq<seq<Text>>, g: seq<Text>)
    ensures GroupsBytes(gs + [g]) == GroupsBytes(gs) + GroupBytes(g)
  {
    hide GroupBytes;
    if gs == [] {
      assert ([] + [g])[1..] == [] && [] + GroupBytes(g) == GroupBytes(g) + [];
    } else {
      GroupsBytesSnoc(gs[1..], g);
      assert (gs + [g])[1..] == gs[1..] + [g];
    }
  }

  method AppendTexts(dst0: seq<Byte>, ts: seq<Text>) returns (dst: seq<Byte>)
    ensures dst == dst0 + GroupBytes(ts)
  {
    hide TextsBytes, Length;
    dst := dst0 + Length(|ts|);
    assert ts[..0] == [] && TextsBytes([]) == [] by { NoTexts(); }
    for k := 0 to |ts|
      invariant dst == dst0 + Length(|ts|) + TextsBytes(ts[..k])
    {
      TextsBytesSnoc(ts[..k], ts[k]);
      assert ts[..k] + [ts[k]] == ts[..k + 1];
      dst := dst + Length(|ts[k]|);
      dst := dst + ts[k];
    }
    assert ts[..|ts|] == ts;
  }

  lemma NoTexts()
    ensures TextsBytes([]) == [] && GroupsBytes([]) == []
  {
  }

  method AppendGroups(dst0: seq<Byte>, gs: seq<seq<Text>>) returns (dst: seq<Byte>)
    ensures dst == dst0 + (Length(|gs|) + GroupsBytes(gs))
  {
    hide GroupBytes, GroupsBytes, Length;
    dst := dst0 + Length(|gs|);
    NoTexts();
    assert gs[..0] == [];
    for i := 0 to |gs|
      invariant dst == dst0 + (Length(|gs|) + GroupsBytes(gs[..i]))
    {
      GroupsBytesSnoc(gs[..i], gs[i]);
      assert gs[..i] + [gs[i]] == gs[..i + 1];
      dst := AppendTexts(dst, gs[i]);
    }
    assert gs[..|gs|] == gs;
  }

  /** Reads `l` texts. */
  method TakeTexts(src0: seq<Byte>, l: nat) returns (ok: bool, ts: seq<Text>, src: seq<Byte>)
    ensures if ok then ReadTexts(l, src0) == Some((ts, src)) else ReadTexts(l, src0) == None
  {
    hide ReadNumber;
    ok, ts, src := true, [], src0;
    StartGroup(ReadTexts(l, src0));
    for i := 0 to l
      invariant ok && (match ReadTexts(l - i, src)
                       case None => ReadTexts(l, src0) == None
                       case Some((more, end)) => ReadTexts(l, src0) == Some((ts + more, end)))
    {
      ShortNumber(2, src);
      if |src| < 2 {
        return false, [], src;
      }
      var n := Decode(src[..2]);
      ghost var before := src;
      src := src[2..];
      if |src| < n {
        return false, [], src;
      }
      var t: Text := src[..n];
      src := src[n..];
      assert ReadText(before) == Some((t, src));
      Regroup(ts, t, ReadTexts(l - i - 1, src));
      ts := ts + [t];
    }
    assert ts + [] == ts;
  }

  lemma ShortNumber(n: nat, src: seq<Byte>)
    ensures ReadNumber(n, src) == if |src| < n then None else Some((Decode(src[..n]), src[n..]))
  {
  }

  lemma StartGroup<T>(more: Option<(seq<T>, seq<Byte>)>)
    ensures more.Some? ==> [] + more.value.0 == more.value.0
  {
  }

  lemma Regroup<T>(ts: seq<T>, t: T, more: Option<(seq<T>, seq<Byte>)>)
    ensures more.Some? ==> ts + ([t] + more.value.0) == ts + [t] + more.value.0
  {
  }

  /** Reads a number of groups and the groups. */
  method TakeFiles(src0: seq<Byte>) returns (ok: bool, gs: seq<seq<Text>>, src: seq<Byte>)
    ensures if ok then ReadFiles(src0) == Some((gs, src)) else ReadFiles(src0) == None
  {
    hide ReadNumber, ReadTexts;
    ok, gs, src := true, [], src0;
    ShortNumber(2, src);
    if |src| < 2 {
      return false, [], src;
    }
    var l := Decode(src[..2]);
    src := src[2..];
    ghost var all := src;
    StartGroup(ReadGroups(l, all));
    for i := 0 to l
      invariant ok && (match ReadGroups(l - i, src)
                       case None => ReadGroups(l, all) == None
                       case Some((more, end)) => ReadGroups(l, all) == Some((gs + more, end)))
    {
      ShortNumber(2, src);
      if |src| < 2 {
        return false, [], src;
      }
      var n := Decode(src[..2]);
      ghost var before := src;
      src := src[2..];
      if |src| < n {
        TooShort(n, src);
        return false, [], src;
      }
      var g, good;
      good, g, src := TakeTexts(src, n);
      if !good {
        return false, [], src;
      }
      assert ReadGroup(before) == Some((g, src));
      Regroup(gs, g, ReadGroups(l - i - 1, src));
      gs := gs + [g];
    }
    assert gs + [] == gs;
  }

  /** A text takes at least two bytes, so checking the number of texts rejects nothing
      that could be read. */
  lemma TooShort(n: nat, src: seq<Byte>)
    requires |src| < n
    ensures ReadTexts(n, src) == None
  {
    if ReadTexts(n, src).Some? {
      TextsWritten(n, src);
    }
  }

  class DownSampleFilesInfo {
    var taskID: nat
    var level: int
    var names: seq<Text>
    var oldFiles: seq<seq<Text>>
    var newFiles: seq<seq<Text>>

    ghost function Value(): Info
      reads this
    {
      Info(taskID, level, names, oldFiles, newFiles)
    }

    constructor (info: Info)
      ensures Value() == info
    {
      taskID, level, names, oldFiles, newFiles := info.taskID, info.level, info.names, info.oldFiles, info.newFiles;
    }

    /** Appends the record and a checksum of everything before it. */
    method Marshal(dst0: seq<Byte>, checksum: seq<Byte> -> seq<Byte>) returns (dst: seq<Byte>)
      ensures dst == dst0 + Body(Value()) + checksum(dst0 + Body(Value()))
    {
      hide Encode, GroupBytes, GroupsBytes, Length;
      dst := dst0 + Encode(8, taskID);
      dst := dst + Encode(8, ZigZag(level));
      dst := AppendTexts(dst, names);
      dst := AppendGroups(dst, oldFiles);
      dst := AppendGroups(dst, newFiles);
      assert dst == dst0 + Body(Value());
      dst := dst + checksum(dst);
    }

    /** Reads a record; what follows it is left over. */
    method Unmarshal(src0: seq<Byte>) returns (ok: bool, src: seq<Byte>)
      modifies this
      ensures ok <==> Parse(src0).Some?
      ensures ok ==> Parse(src0) == Some((Value(), src))
    {
      hide Decode, ReadTexts, ReadFiles, Body;
      if Parse(src0).Some? {
        BodyParse(src0);
      }
      src := src0;
      if |src| < 20 {
        return false, src;
      }
      taskID := Decode(src[..8]);
      src := src[8..];
      level := UnZigZag(Decode(src[..8]));
      src := src[8..];
      assert src[..2] == src0[16..18] && src[2..] == src0[18..];
      var l := Decode(src[..2]);
      src := src[2..];
      if |src| < l + 4 {
        ParseShort(src0, l, src);
        return false, src;
      }
      ok, names, src := TakeTexts(src, l);
      if !ok {
        return;
      }
      ok, oldFiles, src := TakeFiles(src);
      if !ok {
        return;
      }
      ok, newFiles, src := TakeFiles(src);
    }
  }

  /** The check on the number of names rejects nothing that could be read either. */
  lemma ParseShort(src: seq<Byte>, l: nat, rest: seq<Byte>)
    requires |src| >= 20 && l == Decode(src[16..18]) && rest == src[18..] && |rest| < l + 4
    ensures Parse(src) == None
  {
    hide Decode, ReadTexts, ReadFiles;
    assert src[8..][8..] == src[16..] && src[16..][..2] == src[16..18] && src[16..][2..] == rest;
    if Parse(src).Some? {
      TextsWritten(l, rest);
      var (names, s3) := ReadTexts(l, rest).value;
      FilesWritten(s3);
      var (oldFiles, s4) := ReadFiles(s3).value;
      FilesWritten(s4);
    }
  }
}
