/**
 * `create_images.py`: read `HH:MM:SS` times and decide at which instants of
 * a video clip frames are read and under which file names they are saved.
 * The video is a frame source that, asked for the frame at a position in
 * milliseconds, may fail to deliver it.
 */
module FrameSampling {
  import opened Wrappers
  import opened Text

  /** Why `convert_time_to_sec` raises: the unpacking of the split, or `int()` of a field. */
  datatype TimeError = WrongFieldCount(fields: nat) | NotAnInteger(field: string)

  /** `convert_time_to_sec(time)`: `hrs*3600 + mins*60 + sec`, fields converted left to right. */
  function ConvertTimeToSec(time: string): (r: Result<int, TimeError>)
    ensures r.Err? && r.error.WrongFieldCount? <==> Count(time, ':') != 2
    ensures r.Err? && r.error.NotAnInteger? ==> r.error.field in Split(time, ':') && ParseInt(r.error.field).None?
    ensures r.Ok? <==> |Split(time, ':')| == 3 && forall i :: 0 <= i < 3 ==> ParseInt(Split(time, ':')[i]).Some?
  {
    var fields := Split(time, ':');
    if |fields| != 3 then Err(WrongFieldCount(|fields|))
    else
      match (ParseInt(fields[0]), ParseInt(fields[1]), ParseInt(fields[2]))
      case (None, _, _) => Err(NotAnInteger(fields[0]))
      case (Some(_), None, _) => Err(NotAnInteger(fields[1]))
      case (Some(_), Some(_), None) => Err(NotAnInteger(fields[2]))
      case (Some(hrs), Some(mins), Some(sec)) => Ok(hrs * 3600 + mins * 60 + sec)
  }

  /** The `HH:MM:SS` text of a time, each field zero-padded to two digits. */
  function TimeText(hrs: nat, mins: nat, sec: nat): string {
    Join([PadZeros(Decimal(hrs), 2), PadZeros(Decimal(mins), 2), PadZeros(Decimal(sec), 2)], ':')
  }

  lemma PaddedHasNoColon(n: nat)
    ensures ':' !in PadZeros(Decimal(n), 2)
  {
    var s := PadZeros(Decimal(n), 2);
    var d := |s| - |Decimal(n)|;
    forall i | 0 <= i < |s|
      ensures s[i] != ':'
    {
      if i >= d {
        assert s[i] == Decimal(n)[i - d];
      }
    }
  }

  /**
   * Reading the zero-padded text of a time gives its number of seconds; with
   * minutes and seconds below 60 this is the usual clock reading.
   */
  lemma ConvertTimeText(hrs: nat, mins: nat, sec: nat)
    ensures ConvertTimeToSec(TimeText(hrs, mins, sec)) == Ok(hrs * 3600 + mins * 60 + sec)
  {
    var fields := [PadZeros(Decimal(hrs), 2), PadZeros(Decimal(mins), 2), PadZeros(Decimal(sec), 2)];
    PaddedHasNoColon(hrs);
    PaddedHasNoColon(mins);
    PaddedHasNoColon(sec);
    SplitJoin(fields, ':');
    ParsePadded(hrs, 2);
    ParsePadded(mins, 2);
    ParsePadded(sec, 2);
  }

  /** Three colon-free fields joined by colons split back into those three fields. */
  lemma SplitThree(a: string, b: string, c: string)
    requires ':' !in a && ':' !in b && ':' !in c
    ensures Split(a + ":" + b + ":" + c, ':') == [a, b, c]
  {
    assert a + ":" + b + ":" + c == a + [':'] + (b + [':'] + c);
    SplitFieldThenSep(a, b + [':'] + c, ':');
    SplitFieldThenSep(b, c, ':');
    SplitNoSep(c, ':');
  }

  lemma ConvertFields(time: string, hrs: int, mins: int, sec: int)
    requires |Split(time, ':')| == 3
    requires ParseInt(Split(time, ':')[0]) == Some(hrs)
    requires ParseInt(Split(time, ':')[1]) == Some(mins)
    requires ParseInt(Split(time, ':')[2]) == Some(sec)
    ensures ConvertTimeToSec(time) == Ok(hrs * 3600 + mins * 60 + sec)
  {
  }

  /** `int()` of a two-digit field. */
  lemma TwoDigits(s: string)
    requires |s| == 2 && IsDigit(s[0]) && IsDigit(s[1])
    ensures ParseInt(s) == Some(DigitValue(s[0]) * 10 + DigitValue(s[1]))
  {
    assert AllDigits(s);
    assert s[..|s| - 1] == [s[0]];
    assert [s[0]][..0] == [];
    assert DigitsValue([s[0]]) == DigitValue(s[0]);
  }

  /** A clock time written `HH:MM:SS` with two decimal digits per field. */
  lemma ClockTime(h0: char, h1: char, m0: char, m1: char, s0: char, s1: char)
    requires IsDigit(h0) && IsDigit(h1) && IsDigit(m0) && IsDigit(m1) && IsDigit(s0) && IsDigit(s1)
    ensures ConvertTimeToSec([h0, h1, ':', m0, m1, ':', s0, s1])
         == Ok((DigitValue(h0) * 10 + DigitValue(h1)) * 3600
               + (DigitValue(m0) * 10 + DigitValue(m1)) * 60
               + DigitValue(s0) * 10 + DigitValue(s1))
  {
    var time := [h0, h1, ':', m0, m1, ':', s0, s1];
    assert time == [h0, h1] + ":" + [m0, m1] + ":" + [s0, s1];
    SplitThree([h0, h1], [m0, m1], [s0, s1]);
    TwoDigits([h0, h1]);
    TwoDigits([m0, m1]);
    TwoDigits([s0, s1]);
    ConvertFields(time,
      DigitValue(h0) * 10 + DigitValue(h1),
      DigitValue(m0) * 10 + DigitValue(m1),
      DigitValue(s0) * 10 + DigitValue(s1));
  }

  /** The start of the example clip. */
  lemma ExampleStart()
    ensures ConvertTimeToSec("00:02:43") == Ok(163)
  {
    ClockTime('0', '0', '0', '2', '4', '3');
  }

  /** The end of the example clip. */
  lemma ExampleEnd()
    ensures ConvertTimeToSec("00:09:06") == Ok(546)
  {
    ClockTime('0', '0', '0', '9', '0', '6');
  }

  /** No field is range-checked: 75 seconds are accepted as such. */
  lemma SecondsNotRangeChecked()
    ensures ConvertTimeToSec("00:00:75") == Ok(75)
  {
    ClockTime('0', '0', '0', '0', '7', '5');
  }

  /** Two fields do not unpack into `hrs, mins, sec`. */
  lemma MissingFieldRejected()
    ensures ConvertTimeToSec("02:43") == Err(WrongFieldCount(2))
  {
    assert Count("02:43", ':') == 1 by {
      assert "02:43"[1..] == "2:43";
      assert "2:43"[1..] == ":43";
      assert ":43"[1..] == "43";
      assert "43"[1..] == "3";
      assert "3"[1..] == "";
    }
  }

  /** Why `create_images` raises before reading anything. */
  datatype SampleError = BadTime(cause: TimeError) | ZeroDivision

  /**
   * One pass of the loop: the counter value, the position sought in
   * milliseconds, and the file written when the read succeeded.
   */
  datatype Attempt = Attempt(index: nat, positionMs: real, written: Option<string>)

  /** `f"{save_path}/frame{out_img_count}.jpg"` */
  function FrameName(savePath: string, k: nat): string {
    savePath + "/frame" + IntToString(k) + ".jpg"
  }

  /** `(end_time_sec - start_time_sec) / num_imgs` */
  function SamplingRate(start: int, end: int, numImgs: int): real
    requires numImgs != 0
  {
    (end - start) as real / numImgs as real
  }

  /** `out_img_count*sampling_rate*1000 + start_time_sec*1000` */
  function PositionMs(start: int, end: int, numImgs: int, k: nat): real
    requires numImgs != 0
  {
    k as real * SamplingRate(start, end, numImgs) * 1000.0 + start as real * 1000.0
  }

  /** How many attempts the loop makes, with exact arithmetic. */
  function AttemptCount(start: int, end: int, numImgs: int): nat {
    if numImgs > 0 && end > start then numImgs else 0
  }

  /** Attempt k of the schedule: seek the k-th sampling instant, save `frame{k}` exactly when that read succeeds. */
  function AttemptFor(savePath: string, start: int, end: int, numImgs: int, readsFrame: real -> bool, k: nat): Attempt
    requires numImgs != 0
  {
    var pos := PositionMs(start, end, numImgs, k);
    Attempt(k, pos, if readsFrame(pos) then Some(FrameName(savePath, k)) else None)
  }

  /** The first k attempts of the schedule. */
  function AttemptsUpTo(savePath: string, start: int, end: int, numImgs: int, readsFrame: real -> bool, k: nat): (a: seq<Attempt>)
    requires numImgs != 0
    ensures |a| == k
  {
    if k == 0 then [] else AttemptsUpTo(savePath, start, end, numImgs, readsFrame, k - 1) + [AttemptFor(savePath, start, end, numImgs, readsFrame, k - 1)]
  }

  /** The schedule the loop follows, written out. */
  function Attempts(savePath: string, start: int, end: int, numImgs: int, readsFrame: real -> bool): seq<Attempt>
    requires numImgs != 0
  {
    AttemptsUpTo(savePath, start, end, numImgs, readsFrame, AttemptCount(start, end, numImgs))
  }

  /** Every attempt of the schedule is the one its counter value calls for. */
  lemma {:induction false} AttemptsUpToAt(savePath: string, start: int, end: int, numImgs: int, readsFrame: real -> bool, n: nat, k: nat)
    requires numImgs != 0 && k < n
    ensures |AttemptsUpTo(savePath, start, end, numImgs, readsFrame, n)| == n
    ensures AttemptsUpTo(savePath, start, end, numImgs, readsFrame, n)[k] == AttemptFor(savePath, start, end, numImgs, readsFrame, k)
  {
    if k < n - 1 {
      AttemptsUpToAt(savePath, start, end, numImgs, readsFrame, n - 1, k);
    } else if n > 1 {
      AttemptsUpToAt(savePath, start, end, numImgs, readsFrame, n - 1, 0);
    }
  }

  /** Attempt k of the schedule, spelled out. */
  lemma AttemptAt(savePath: string, start: int, end: int, numImgs: int, readsFrame: real -> bool, k: nat)
    requires numImgs != 0 && k < AttemptCount(start, end, numImgs)
    ensures var pos := PositionMs(start, end, numImgs, k);
      |Attempts(savePath, start, end, numImgs, readsFrame)| == AttemptCount(start, end, numImgs)
      && Attempts(savePath, start, end, numImgs, readsFrame)[k]
         == Attempt(k, pos, if readsFrame(pos) then Some(FrameName(savePath, k)) else None)
  {
    AttemptsUpToAt(savePath, start, end, numImgs, readsFrame, AttemptCount(start, end, numImgs), k);
  }

  /** `curr_time` after k passes of `curr_time += sampling_rate`. */
  function TimeAt(start: int, rate: real, k: nat): real {
    if k == 0 then start as real else TimeAt(start, rate, k - 1) + rate
  }

  /** With exact arithmetic the running sum is `start + k * rate`. */
  lemma {:induction false} TimeAtLinear(start: int, rate: real, k: nat)
    ensures TimeAt(start, rate, k) == start as real + k as real * rate
  {
    if k > 0 {
      TimeAtLinear(start, rate, k - 1);
    }
  }

  /**
   * The loop guard `out_img_count < num_imgs and curr_time < end_time_sec`
   * holds for counter value k exactly when k is one of the scheduled attempts.
   */
  lemma {:induction false} AttemptsStopRule(start: int, end: int, numImgs: int, k: nat)
    requires numImgs != 0 && k <= AttemptCount(start, end, numImgs)
    ensures k < AttemptCount(start, end, numImgs) <==>
      k < numImgs && TimeAt(start, SamplingRate(start, end, numImgs), k) < end as real
  {
    var rate := SamplingRate(start, end, numImgs);
    TimeAtLinear(start, rate, k);
    if numImgs > 0 {
      assert rate * numImgs as real == (end - start) as real;
      if end > start {
        assert rate > 0.0;
        if k < numImgs {
          assert k as real * rate < numImgs as real * rate;
        }
      } else {
        assert rate <= 0.0;
        assert k as real * rate <= 0.0;
      }
    }
  }

  /**
   * `create_images(path, save_path, start_time, end_time, num_imgs=10)` with the
   * video as `readsFrame`: whether reading at a position (ms) succeeds. The
   * result lists every pass of the loop in order.
   */
  method CreateImages(readsFrame: real -> bool, savePath: string, startTime: string, endTime: string, numImgs: int := 10)
    returns (r: Result<seq<Attempt>, SampleError>)
    ensures ConvertTimeToSec(startTime).Err? ==> r == Err(BadTime(ConvertTimeToSec(startTime).error))
    ensures ConvertTimeToSec(startTime).Ok? && ConvertTimeToSec(endTime).Err? ==>
      r == Err(BadTime(ConvertTimeToSec(endTime).error))
    ensures ConvertTimeToSec(startTime).Ok? && ConvertTimeToSec(endTime).Ok? && numImgs == 0 ==> r == Err(ZeroDivision)
    ensures ConvertTimeToSec(startTime).Ok? && ConvertTimeToSec(endTime).Ok? && numImgs != 0 ==>
      r == Ok(Attempts(savePath, ConvertTimeToSec(startTime).value, ConvertTimeToSec(endTime).value, numImgs, readsFrame))
  {
    var startParsed := ConvertTimeToSec(startTime);
    if startParsed.Err? {
      return Err(BadTime(startParsed.error));
    }
    var endParsed := ConvertTimeToSec(endTime);
    if endParsed.Err? {
      return Err(BadTime(endParsed.error));
    }
    var start, end := startParsed.value, endParsed.value;
    if numImgs == 0 {
      return Err(ZeroDivision);
    }
    var attempts := SampleFrames(savePath, start, end, numImgs, readsFrame);
    return Ok(attempts);
  }

  /**
   * The sampling loop of `create_images`, once both times are read and the
   * sampling rate can be computed.
   */
  method SampleFrames(savePath: string, start: int, end: int, numImgs: int, readsFrame: real -> bool)
    returns (attempts: seq<Attempt>)
    requires numImgs != 0
    ensures attempts == Attempts(savePath, start, end, numImgs, readsFrame)
  {
    var samplingRate := (end - start) as real / numImgs as real;
    assert samplingRate == SamplingRate(start, end, numImgs);
    attempts := [];
    var outImgCount := 0;
    var currTime := start as real;
    while outImgCount < numImgs && currTime < end as real
      invariant 0 <= outImgCount <= AttemptCount(start, end, numImgs)
      invariant currTime == TimeAt(start, samplingRate, outImgCount)
      invariant attempts == AttemptsUpTo(savePath, start, end, numImgs, readsFrame, outImgCount)
      decreases numImgs - outImgCount
    {
      AttemptsStopRule(start, end, numImgs, outImgCount);
      var position := outImgCount as real * samplingRate * 1000.0 + start as real * 1000.0;
      var written: Option<string> := None;
      if readsFrame(position) {
        written := Some(FrameName(savePath, outImgCount));
      }
      assert position == PositionMs(start, end, numImgs, outImgCount);
      attempts := attempts + [Attempt(outImgCount, position, written)];
      outImgCount := outImgCount + 1;
      currTime := currTime + samplingRate;
    }
    AttemptsStopRule(start, end, numImgs, outImgCount);
  }

  /** The loop makes at most `num_imgs` attempts, and none when the clip is empty or reversed. */
  lemma AttemptsBounded(savePath: string, start: int, end: int, numImgs: int, readsFrame: real -> bool)
    requires numImgs != 0
    ensures |Attempts(savePath, start, end, numImgs, readsFrame)| <= if numImgs > 0 then numImgs else 0
    ensures end <= start ==> Attempts(savePath, start, end, numImgs, readsFrame) == []
    ensures end > start && numImgs > 0 ==> |Attempts(savePath, start, end, numImgs, readsFrame)| == numImgs
  {
  }

  /** With a non-empty schedule the sampling rate is positive and spans the clip in `num_imgs` steps. */
  lemma RatePositive(start: int, end: int, numImgs: int)
    requires numImgs != 0 && AttemptCount(start, end, numImgs) > 0
    ensures SamplingRate(start, end, numImgs) > 0.0
    ensures numImgs as real * SamplingRate(start, end, numImgs) == (end - start) as real
  {
  }

  lemma ScaleLess(a: real, b: real, c: real)
    requires a < b && c > 0.0
    ensures a * c < b * c
  {
  }

  /** Attempt k seeks the k-th sampling instant, so positions strictly increase. */
  lemma PositionsIncreasing(savePath: string, start: int, end: int, numImgs: int, readsFrame: real -> bool, i: nat, j: nat)
    requires numImgs != 0
    requires i < j < |Attempts(savePath, start, end, numImgs, readsFrame)|
    ensures Attempts(savePath, start, end, numImgs, readsFrame)[i].positionMs
      < Attempts(savePath, start, end, numImgs, readsFrame)[j].positionMs
  {
    var rate := SamplingRate(start, end, numImgs);
    AttemptAt(savePath, start, end, numImgs, readsFrame, i);
    AttemptAt(savePath, start, end, numImgs, readsFrame, j);
    RatePositive(start, end, numImgs);
    ScaleLess(i as real, j as real, rate);
    ScaleLess(i as real * rate, j as real * rate, 1000.0);
  }

  /** Every position sought lies in `[start, end)` seconds, in milliseconds. */
  lemma PositionsInClip(savePath: string, start: int, end: int, numImgs: int, readsFrame: real -> bool, k: nat)
    requires numImgs != 0
    requires k < |Attempts(savePath, start, end, numImgs, readsFrame)|
    ensures start as real * 1000.0 <= Attempts(savePath, start, end, numImgs, readsFrame)[k].positionMs < end as real * 1000.0
  {
    var rate := SamplingRate(start, end, numImgs);
    AttemptAt(savePath, start, end, numImgs, readsFrame, k);
    RatePositive(start, end, numImgs);
    AttemptsStopRule(start, end, numImgs, k);
    TimeAtLinear(start, rate, k);
    assert 0.0 <= k as real * rate;
    ScaleLess(start as real + k as real * rate, end as real, 1000.0);
  }

  /** Different counter values name different files. */
  lemma FrameNameInjective(savePath: string, i: nat, j: nat)
    requires FrameName(savePath, i) == FrameName(savePath, j)
    ensures i == j
  {
    var p := savePath + "/frame";
    var a, b := FrameName(savePath, i), FrameName(savePath, j);
    assert |Decimal(i)| == |Decimal(j)|;
    assert a[|p|..|a| - 4] == Decimal(i);
    assert b[|p|..|b| - 4] == Decimal(j);
    DecimalInjective(i, j);
  }

  /**
   * The counter advances whether or not the read succeeded: after a failed
   * read at attempt k no file `frame{k}` is written at all, leaving a gap in
   * the numbering, and each written file belongs to exactly one attempt.
   */
  lemma FailedReadLeavesGap(savePath: string, start: int, end: int, numImgs: int, readsFrame: real -> bool, k: nat)
    requires numImgs != 0
    requires k < |Attempts(savePath, start, end, numImgs, readsFrame)|
    requires !readsFrame(Attempts(savePath, start, end, numImgs, readsFrame)[k].positionMs)
    ensures forall j :: 0 <= j < |Attempts(savePath, start, end, numImgs, readsFrame)| ==>
      Attempts(savePath, start, end, numImgs, readsFrame)[j].written != Some(FrameName(savePath, k))
  {
    var a := Attempts(savePath, start, end, numImgs, readsFrame);
    AttemptAt(savePath, start, end, numImgs, readsFrame, k);
    forall j | 0 <= j < |a|
      ensures a[j].written != Some(FrameName(savePath, k))
    {
      AttemptAt(savePath, start, end, numImgs, readsFrame, j);
      if j != k && a[j].written == Some(FrameName(savePath, k)) {
        assert FrameName(savePath, j) == FrameName(savePath, k);
        FrameNameInjective(savePath, j, k);
      }
    }
  }

  /** The example run: ten attempts, 38.3 seconds apart, starting at 163 s. */
  lemma ExampleSchedule(readsFrame: real -> bool)
    ensures var a := Attempts("data/gwen_universe", 163, 546, 10, readsFrame);
      |a| == 10 && a[0].positionMs == 163000.0 && a[9].positionMs == 507700.0
  {
    assert SamplingRate(163, 546, 10) == 38.3;
    AttemptAt("data/gwen_universe", 163, 546, 10, readsFrame, 0);
    AttemptAt("data/gwen_universe", 163, 546, 10, readsFrame, 9);
  }
}
