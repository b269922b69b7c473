/**
 * The device list and batch scaling that the trainer's constructor derives
 * from its `gpu_id` string: the string is split on commas, each piece is read
 * as a decimal integer the way Python's `int` reads it, the number of pieces
 * scales the per-device batch size, and the first piece names the selected
 * device.
 */
module GpuConfig {
  import opened Wrappers

  /** The error Python's `int` raises (ValueError) on a piece that is not an integer. */
  datatype ConfigError = InvalidGpuId(piece: string)

  /** What the constructor keeps: the device ids, the scaled batch size and the selected device. */
  datatype DeviceConfig = DeviceConfig(gpus: seq<int>, batchSize: int, device: int)

  // ---------------------------------------------------------------------------
  // str.split(',') and its inverse ','.join(...)
  // ---------------------------------------------------------------------------

  /** Index of the first comma of `s`, or |s| when there is none. */
  function FirstComma(s: string): (k: nat)
    ensures k <= |s|
    ensures forall j :: 0 <= j < k ==> s[j] != ','
    ensures k < |s| ==> s[k] == ','
  {
    if |s| == 0 then 0
    else if s[0] == ',' then 0
    else 1 + FirstComma(s[1..])
  }

  /** ','.join(pieces) */
  function Join(pieces: seq<string>): string
    requires |pieces| >= 1
  {
    if |pieces| == 1 then pieces[0] else pieces[0] + "," + Join(pieces[1..])
  }

  /**
   * Python's `s.split(',')`: never empty, no piece holds a comma, and joining the
   * pieces with commas gives `s` back.
   */
  function Split(s: string): (pieces: seq<string>)
    ensures |pieces| >= 1
    ensures forall i :: 0 <= i < |pieces| ==> ',' !in pieces[i]
    ensures Join(pieces) == s
    decreases |s|
  {
    var k := FirstComma(s);
    if k == |s| then [s]
    else
      var rest := Split(s[k + 1..]);
      assert s == s[..k] + "," + s[k + 1..];
      [s[..k]] + rest
  }

  /** Splitting a comma-free join gives the pieces back. */
  lemma {:induction false} SplitJoin(pieces: seq<string>)
    requires |pieces| >= 1
    requires forall i :: 0 <= i < |pieces| ==> ',' !in pieces[i]
    ensures Split(Join(pieces)) == pieces
    decreases |pieces|
  {
    var p := pieces[0];
    if |pieces| == 1 {
      assert FirstComma(p) == |p|;
    } else {
      var rest := Join(pieces[1..]);
      var s := p + "," + rest;
      assert FirstComma(s) == |p| by {
        assert forall j :: 0 <= j < |p| ==> s[j] == p[j];
        FirstCommaAt(s, |p|);
      }
      assert s[..|p|] == p;
      assert s[|p| + 1..] == rest;
      SplitJoin(pieces[1..]);
    }
  }

  /** The first comma lies at `k` when `s[k]` is a comma and none comes before it. */
  lemma {:induction false} FirstCommaAt(s: string, k: nat)
    requires k < |s| && s[k] == ','
    requires forall j :: 0 <= j < k ==> s[j] != ','
    ensures FirstComma(s) == k
    decreases k
  {
    if k > 0 {
      FirstCommaAt(s[1..], k - 1);
    }
  }

  // ---------------------------------------------------------------------------
  // Python's int(piece), base 10
  // ---------------------------------------------------------------------------

  /**
   * The white space Python's `int()` removes around a number: ASCII tab to
   * carriage return and the space, and the non-ASCII `str.isspace()`
   * characters U+0085, U+00A0, U+1680, U+2000..U+200A, U+2028, U+2029,
   * U+202F, U+205F and U+3000. The ASCII separators U+001C..U+001F, which
   * `str.isspace()` also accepts, are not removed by `int()`.
   */
  predicate IsSpace(c: char) {
    || '\t' <= c <= '\r'
    || c == ' '
    || c == '\U{85}' || c == '\U{A0}' || c == '\U{1680}'
    || '\U{2000}' <= c <= '\U{200A}'
    || c == '\U{2028}' || c == '\U{2029}' || c == '\U{202F}' || c == '\U{205F}' || c == '\U{3000}'
  }

  predicate IsDigit(c: char) {
    '0' <= c <= '9'
  }

  predicate AllDigits(s: string) {
    forall i :: 0 <= i < |s| ==> IsDigit(s[i])
  }

  /** Removes leading and trailing white space. */
  function Strip(s: string): (t: string)
    ensures |t| > 0 ==> !IsSpace(t[0]) && !IsSpace(t[|t| - 1])
  {
    StripRight(StripLeft(s))
  }

  function StripLeft(s: string): (t: string)
    ensures |t| <= |s| && t == s[|s| - |t|..]
    ensures |t| > 0 ==> !IsSpace(t[0])
  {
    if |s| > 0 && IsSpace(s[0]) then StripLeft(s[1..]) else s
  }

  function StripRight(s: string): (t: string)
    ensures |t| <= |s| && t == s[..|t|]
    ensures |t| > 0 ==> !IsSpace(t[|t| - 1])
  {
    if |s| > 0 && IsSpace(s[|s| - 1]) then StripRight(s[..|s| - 1]) else s
  }

  /** The value of a string of decimal digits, most significant first. */
  function DigitsValue(ds: string): (v: nat)
    requires AllDigits(ds)
  {
    if |ds| == 0 then 0
    else DigitsValue(ds[..|ds| - 1]) * 10 + (ds[|ds| - 1] as int - '0' as int)
  }

  /**
   * Python's `int(piece)`: surrounding white space is ignored, an optional sign
   * is followed by at least one decimal digit; anything else is a ValueError.
   */
  function ParseInt(piece: string): (r: Option<int>)
  {
    ParseLiteral(Strip(piece))
  }

  /** An optional sign and at least one decimal digit, nothing else. */
  function ParseLiteral(u: string): (r: Option<int>)
  {
    if |u| > 0 && (u[0] == '+' || u[0] == '-') then
      var ds := u[1..];
      if |ds| > 0 && AllDigits(ds) then
        Some(if u[0] == '-' then -(DigitsValue(ds) as int) else DigitsValue(ds))
      else None
    else if |u| > 0 && AllDigits(u) then Some(DigitsValue(u))
    else None
  }

  /** The decimal form of a natural number, as `str(n)` writes it. */
  function NatToString(n: nat): (s: string)
    ensures |s| > 0 && AllDigits(s)
  {
    if n < 10 then [('0' as int + n) as char]
    else NatToString(n / 10) + [('0' as int + n % 10) as char]
  }

  /** Reading back the decimal form of `n` gives `n`. */
  lemma {:induction false} NatToStringValue(n: nat)
    ensures DigitsValue(NatToString(n)) == n
  {
    var s := NatToString(n);
    if n >= 10 {
      NatToStringValue(n / 10);
      assert s[..|s| - 1] == NatToString(n / 10);
    }
  }

  /** `int(str(n)) == n`, also with white space around it. */
  lemma ParseNatToString(n: nat, pad: string)
    requires forall i :: 0 <= i < |pad| ==> IsSpace(pad[i])
    ensures ParseInt(pad + NatToString(n) + pad) == Some(n)
  {
    var s := NatToString(n);
    NatToStringValue(n);
    StripPadding(s, pad);
    ParseDigits(s);
  }

  /** A non-empty run of digits reads as its value. */
  lemma ParseDigits(s: string)
    requires |s| > 0 && AllDigits(s)
    ensures ParseLiteral(s) == Some(DigitsValue(s))
  {
    assert IsDigit(s[0]);
  }

  /** White space around a word that neither starts nor ends with white space is stripped. */
  lemma StripPadding(s: string, pad: string)
    requires forall i :: 0 <= i < |pad| ==> IsSpace(pad[i])
    requires |s| > 0 && AllDigits(s)
    ensures Strip(pad + s + pad) == s
  {
    assert !IsSpace(s[0]) && !IsSpace(s[|s| - 1]) by {
      assert IsDigit(s[0]) && IsDigit(s[|s| - 1]);
    }
    assert pad + s + pad == pad + (s + pad);
    StripLeftSpaces(pad, s + pad);
    StripRightSpaces(s, pad);
  }

  lemma {:induction false} StripLeftSpaces(pad: string, t: string)
    requires forall i :: 0 <= i < |pad| ==> IsSpace(pad[i])
    requires |t| > 0 && !IsSpace(t[0])
    ensures StripLeft(pad + t) == t
    decreases |pad|
  {
    if |pad| > 0 {
      assert (pad + t)[1..] == pad[1..] + t;
      StripLeftSpaces(pad[1..], t);
    } else {
      assert pad + t == t;
    }
  }

  lemma {:induction false} StripRightSpaces(t: string, pad: string)
    requires forall i :: 0 <= i < |pad| ==> IsSpace(pad[i])
    requires |t| > 0 && !IsSpace(t[|t| - 1])
    ensures StripRight(t + pad) == t
    decreases |pad|
  {
    if |pad| > 0 {
      assert (t + pad)[..|t + pad| - 1] == t + pad[..|pad| - 1];
      StripRightSpaces(t, pad[..|pad| - 1]);
    } else {
      assert t + pad == t;
    }
  }

  // ---------------------------------------------------------------------------
  // The constructor's derivation
  // ---------------------------------------------------------------------------

  /**
   * `[int(ix) for ix in pieces]`: every piece read in order, or the first piece
   * that is not an integer (`ParseAllFirstError`).
   */
  function ParseAll(pieces: seq<string>): (r: Result<seq<int>, ConfigError>)
    ensures r.Ok? ==> |r.value| == |pieces|
    ensures r.Ok? ==> forall i :: 0 <= i < |pieces| ==> ParseInt(pieces[i]) == Some(r.value[i])
    ensures r.Err? ==> r.error.piece in pieces && ParseInt(r.error.piece).None?
  {
    if |pieces| == 0 then Ok([])
    else
      match ParseInt(pieces[0])
      case None => Err(InvalidGpuId(pieces[0]))
      case Some(g) =>
        var rest := ParseAll(pieces[1..]);
        if rest.Err? then Err(rest.error)
        else Ok([g] + rest.value)
  }

  /**
   * The piece `ParseAll` reports is the first one that is not an integer:
   * every piece before it reads as an integer.
   */
  lemma {:induction false} ParseAllFirstError(pieces: seq<string>)
    ensures ParseAll(pieces).Err? ==> exists k ::
      && 0 <= k < |pieces|
      && pieces[k] == ParseAll(pieces).error.piece
      && ParseInt(pieces[k]).None?
      && (forall j :: 0 <= j < k ==> ParseInt(pieces[j]).Some?)
    decreases |pieces|
  {
    if ParseAll(pieces).Ok? {
    } else if ParseInt(pieces[0]).None? {
      assert pieces[0] == ParseAll(pieces).error.piece;
    } else {
      var rest := pieces[1..];
      ParseAllFirstError(rest);
      var k :|
        && 0 <= k < |rest|
        && rest[k] == ParseAll(rest).error.piece
        && ParseInt(rest[k]).None?
        && (forall j :: 0 <= j < k ==> ParseInt(rest[j]).Some?);
      assert ParseAll(pieces).error == ParseAll(rest).error;
      assert pieces[k + 1] == rest[k];
      forall j | 0 <= j < k + 1 ensures ParseInt(pieces[j]).Some? {
        if j > 0 {
          assert pieces[j] == rest[j - 1];
        }
      }
    }
  }

  /**
   * `GANTrainer.__init__`'s device derivation: the ids parsed from the
   * comma-separated `gpuId`, the batch size scaled by their number, and the
   * first id as the selected device.
   */
  function DeviceSetup(gpuId: string, batchSize: int): (r: Result<DeviceConfig, ConfigError>)
    ensures var pieces := Split(gpuId);
      && (r.Ok? ==> |r.value.gpus| == |pieces| >= 1)
      && (r.Ok? ==> r.value.batchSize == batchSize * |r.value.gpus|)
      && (r.Ok? ==> r.value.device == r.value.gpus[0])
      && (r.Ok? ==> forall i :: 0 <= i < |pieces| ==> ParseInt(pieces[i]) == Some(r.value.gpus[i]))
      && (r.Err? ==> r.error.piece in pieces && ParseInt(r.error.piece).None?)
  {
    var parsed := ParseAll(Split(gpuId));
    if parsed.Err? then Err(parsed.error)
    else Ok(DeviceConfig(parsed.value, batchSize * |parsed.value|, parsed.value[0]))
  }

  /** The `gpu_id` string that lists the given device ids, as `','.join(map(str, ids))`. */
  function JoinIds(ids: seq<nat>): (s: string)
    requires |ids| >= 1
  {
    Join(seq(|ids|, i requires 0 <= i < |ids| => NatToString(ids[i])))
  }

  /** Listing device ids and deriving the configuration gives the same ids back. */
  lemma DeviceSetupJoinIds(ids: seq<nat>, batchSize: int)
    requires |ids| >= 1
    ensures DeviceSetup(JoinIds(ids), batchSize)
         == Ok(DeviceConfig(ids, batchSize * |ids|, ids[0]))
  {
    var pieces := seq(|ids|, i requires 0 <= i < |ids| => NatToString(ids[i]));
    forall i | 0 <= i < |pieces| ensures ',' !in pieces[i] {
      assert AllDigits(pieces[i]);
    }
    SplitJoin(pieces);
    forall i | 0 <= i < |pieces| ensures ParseInt(pieces[i]) == Some(ids[i] as int) {
      ParseNatToString(ids[i], "");
      assert "" + pieces[i] + "" == pieces[i];
    }
    ParseAllValues(pieces, ids);
  }

  /** Pieces that each read as the matching id are read, all together, as those ids. */
  lemma {:induction false} ParseAllValues(pieces: seq<string>, ids: seq<int>)
    requires |pieces| == |ids|
    requires forall i :: 0 <= i < |ids| ==> ParseInt(pieces[i]) == Some(ids[i])
    ensures ParseAll(pieces) == Ok(ids)
    decreases |ids|
  {
    if |ids| > 0 {
      assert ParseInt(pieces[0]) == Some(ids[0]);
      forall i | 0 <= i < |ids| - 1 ensures ParseInt(pieces[1..][i]) == Some(ids[1..][i]) {
        assert pieces[1..][i] == pieces[i + 1];
      }
      ParseAllValues(pieces[1..], ids[1..]);
      assert ParseAll(pieces) == Ok([ids[0]] + ids[1..]);
      assert ids == [ids[0]] + ids[1..];
    }
  }

  /** `"0,1,2"` with batch size 16 yields three devices, batch 48 and device 0. */
  lemma ThreeDevices()
    ensures DeviceSetup("0,1,2", 16) == Ok(DeviceConfig([0, 1, 2], 48, 0))
  {
    var ids: seq<nat> := [0, 1, 2];
    assert NatToString(0) == "0" && NatToString(1) == "1" && NatToString(2) == "2";
    var pieces := seq(|ids|, i requires 0 <= i < |ids| => NatToString(ids[i]));
    assert pieces == ["0", "1", "2"];
    assert Join(["2"]) == "2";
    assert ["1", "2"][1..] == ["2"] && Join(["1", "2"]) == "1,2";
    assert pieces[1..] == ["1", "2"] && Join(pieces) == "0,1,2";
    DeviceSetupJoinIds([0, 1, 2], 16);
  }
}
