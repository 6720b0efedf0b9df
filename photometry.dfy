/** sdss/photometry.py: the names and URLs of the imaging frames of an
    object — `frame_filename`, `frames_url`, `frame_url` and
    `obj_frame_url`. */
module Photometry {
  import opened PyTypes
  import opened Text
  import opened Numerals
  import opened Utils

  /** `frame_filename(objid)`: the r-band frame name of the object's run,
      camcol and field. A malformed id raises what `decode_objid` raises. */
  function FrameFilename(objid: Arg): (r: Result<string>)
    ensures r.Success? <==> DecodeObjIdArg(objid).Success?
    ensures r.Failure? ==> r.error == DecodeObjIdArg(objid).error
  {
    match DecodeObjIdArg(objid)
    case Failure(e) => Failure(e)
    case Success(dc) => Success(FrameName("r", dc.run, dc.camcol, dc.field))
  }

  /** The name holds the object's run, camcol and field: cut at '-' it gives
      "frame", "r" and three numbers that read back as those fields, the run
      at least 6 digits wide and the field at least 4. */
  lemma FrameFilenameFields(objid: Arg)
    requires DecodeObjIdArg(objid).Success?
    ensures var dc := DecodeObjIdArg(objid).value;
            var parts := Split(FrameFilename(objid).value, '-');
            && |parts| == 5 && parts[0] == "frame" && parts[1] == "r"
            && ParseInt(parts[2]) == Some(dc.run as int) && |parts[2]| >= 6
            && ParseInt(parts[3]) == Some(dc.camcol as int)
            && ParseInt(parts[4]) == Some(dc.field as int) && |parts[4]| >= 4
  {
    var dc := DecodeObjIdArg(objid).value;
    FrameNameFields("r", dc.run, dc.camcol, dc.field);
  }

  /** The three numbers of a frame name read back as the numbers it was
      built from. */
  lemma FrameNameFields(band: string, run: nat, camcol: nat, field: nat)
    requires NoDash(band)
    ensures var parts := Split(FrameName(band, run, camcol, field), '-');
            && |parts| == 5 && parts[0] == "frame" && parts[1] == band
            && ParseInt(parts[2]) == Some(run as int) && |parts[2]| >= 6
            && ParseInt(parts[3]) == Some(camcol as int)
            && ParseInt(parts[4]) == Some(field as int) && |parts[4]| >= 4
  {
    FrameNameSplit(band, run, camcol, field);
    PartsReadBack(Split(FrameName(band, run, camcol, field), '-'), band, run, camcol, field);
  }

  lemma PartsReadBack(parts: seq<string>, band: string, run: nat, camcol: nat, field: nat)
    requires parts == ["frame", band, ZFill(IntStr(run), 6), IntStr(camcol), ZFill(IntStr(field), 4)]
    ensures && |parts| == 5 && parts[0] == "frame" && parts[1] == band
            && ParseInt(parts[2]) == Some(run as int) && |parts[2]| >= 6
            && ParseInt(parts[3]) == Some(camcol as int)
            && ParseInt(parts[4]) == Some(field as int) && |parts[4]| >= 4
  {
    assert ParseInt(parts[2]) == Some(run as int) by {
      ParseIntPadded(run, 6);
    }
    assert ParseInt(parts[3]) == Some(camcol as int) by {
      ParseIntStr(camcol);
    }
    assert ParseInt(parts[4]) == Some(field as int) by {
      ParseIntPadded(field, 4);
    }
  }

  const FRAMES_BASE := "https://data.sdss.org//sas/dr17/eboss/photoObj/frames/301/"

  /** `frames_url(run)`: the listing page of a run. The run must be given as
      text: an int cannot be added to the base text and raises TypeError. */
  function FramesUrl(run: Arg): (r: Result<string>)
    ensures r.Failure? <==> run.IntArg?
    ensures r.Failure? ==> r.error == TypeError
  {
    match run
    case IntArg(_) => Failure(TypeError)
    case StrArg(s) => Success(FRAMES_BASE + s + "/frames-run-" + ZFill(s, 6) + ".html")
  }

  /** The page of a run given as its decimal text names the run twice: as
      written, and zero-padded to 6 digits; both read back as the run. */
  lemma FramesUrlRun(run: nat)
    ensures var t := IntStr(run);
            && FramesUrl(StrArg(t)) == Success(FRAMES_BASE + t + "/frames-run-" + ZFill(t, 6) + ".html")
            && ParseInt(t) == Some(run as int) && ParseInt(ZFill(t, 6)) == Some(run as int)
            && |ZFill(t, 6)| == Max(|t|, 6)
  {
    ParseIntStr(run);
    ParseIntPadded(run, 6);
  }

  /** "https://data.sdss.org/sas/dr<dr>/eboss/photoObj/frames/" */
  function FrameBase(dr: int): string
  {
    PhotoObjBase(dr) + "frames/"
  }

  function PhotoObjBase(dr: int): string
  {
    SAS_DR + IntStr(dr) + PHOTO_OBJ_DIR
  }

  /** `frame_url(run, camcol, field, band, rerun, dr, jpg)`. For a JPEG the
      FITS URL is rewritten by two replaces: "-<band>-" becomes "-irg-" and
      "fits.bz2" becomes "jpg". */
  function FrameUrl(run: int, camcol: int, field: int, band: string, rerun: int := 301, dr: int := 17,
                    jpg: bool := false): string
  {
    var url := FrameDir(FrameBase(dr), rerun, run, camcol) + FrameName(band, run, camcol, field) + ".fits.bz2";
    if jpg then Replace(Replace(url, "-" + band + "-", "-irg-"), "fits.bz2", "jpg") else url
  }

  /** `obj_frame_url(objid, band, jpg)`: `frame_url` for the object's run,
      camcol and field, with the defaults rerun 301 and release 17. */
  function ObjFrameUrl(objid: Arg, band: string, jpg: bool := false): (r: Result<string>)
    ensures r.Success? <==> DecodeObjIdArg(objid).Success?
  {
    match DecodeObjIdArg(objid)
    case Failure(e) => Failure(e)
    case Success(dc) => Success(FrameUrl(dc.run, dc.camcol, dc.field, band, 301, 17, jpg))
  }

  // ---------------------------------------------------------------------
  // What the two replaces of a JPEG URL do

  lemma PhotoObjBasePlain(dr: int)
    requires dr >= 0
    ensures 'f' !in PhotoObjBase(dr) && '-' !in PhotoObjBase(dr)
  {
    DigitsLackLetters(IntStr(dr));
  }

  lemma DigitsLackLetters(s: string)
    requires AllDigits(s)
    ensures 'f' !in s && '-' !in s
  {
  }

  /** The numbers of a frame name: every '-' in them is followed by a
      digit, and neither they nor the '.' after them hold an 'f'. */
  lemma FrameNumbersPlain(run: int, camcol: int, field: int)
    requires run >= 0 && camcol >= 0 && field >= 0
    ensures DashThenDigit(FrameNumbers(run, camcol, field) + ".fits.bz2")
    ensures 'f' !in FrameNumbers(run, camcol, field) + "."
  {
    ZFillUnsigned(IntStr(run), 6);
    ZFillUnsigned(IntStr(field), 4);
    DigitsPlain(ZFill(IntStr(run), 6), IntStr(camcol), ZFill(IntStr(field), 4), ".fits.bz2");
  }

  /** Three runs of digits joined by '-' and followed by an extension
      without '-' or 'f' before its dot. */
  lemma DigitsPlain(a: string, b: string, c: string, ext: string)
    requires AllDigits(a) && AllDigits(b) && AllDigits(c) && |b| > 0 && |c| > 0
    requires ext == ".fits.bz2"
    ensures DashThenDigit(a + "-" + b + "-" + c + ext)
    ensures 'f' !in a + "-" + b + "-" + c + "."
  {
    var t := a + "-" + b + "-" + c + ext;
    forall i | 0 <= i < |t| && t[i] == '-'
      ensures i + 1 < |t| && IsDigit(t[i + 1])
    {
      if i == |a| {
        assert t[i + 1] == b[0];
      } else if i == |a| + 1 + |b| {
        assert t[i + 1] == c[0];
      }
    }
    var u := a + "-" + b + "-" + c + ".";
    forall i | 0 <= i < |u|
      ensures u[i] != 'f'
    {
      if i < |a| {
        assert u[i] == a[i];
      } else if |a| + 1 <= i < |a| + 1 + |b| {
        assert u[i] == b[i - |a| - 1];
      } else if |a| + 2 + |b| <= i < |a| + 2 + |b| + |c| {
        assert u[i] == c[i - |a| - 2 - |b|];
      }
    }
  }

  /** Replacing "-<band>-" in "<pre>frame-<band>-<tail>" touches only the
      band, provided `pre` has no '-', every '-' in the tail is followed by a
      digit and the band does not start with a digit. */
  lemma ReplaceBand(pre: string, band: string, tail: string)
    requires '-' !in pre && DashThenDigit(tail)
    requires band == "" || !IsDigit(band[0])
    ensures Replace(pre + "frame" + ("-" + band + "-") + tail, "-" + band + "-", "-irg-")
            == pre + "frame" + "-irg-" + tail
  {
    var pat := "-" + band + "-";
    ReplaceSkip(pre + "frame", pat + tail, pat, "-irg-");
    assert pre + "frame" + pat + tail == (pre + "frame") + (pat + tail);
    ReplaceFront(tail, pat, "-irg-");
    ReplaceDashDigit(tail, pat, "-irg-");
  }

  /** A pattern starting "fi" cannot start at the 'f' of "frame". */
  lemma ReplaceAfterFrame(mid: string, rest: string, pat: string, rep: string)
    requires |pat| >= 2 && pat[0] == 'f' && pat[1] == 'i' && 'f' !in mid
    ensures Replace("frame" + mid + rest, pat, rep) == "frame" + mid + Replace(rest, pat, rep)
  {
    var s := "frame" + mid + rest;
    ReplaceMiss(s, pat, rep, 1);
    assert s[1..] == "rame" + mid + rest;
    ReplaceSkip("rame" + mid, rest, pat, rep);
    assert [s[0]] + ("rame" + mid + Replace(rest, pat, rep)) == "frame" + mid + Replace(rest, pat, rep);
  }

  lemma ReplaceWhole(pat: string, rep: string)
    requires |pat| > 0
    ensures Replace(pat, pat, rep) == rep
  {
    ReplaceFront("", pat, rep);
    assert pat + "" == pat;
  }

  /** The two replaces on a URL "<p0>frames/<d>frame-<band>-<nums>.fits.bz2"
      whose other parts hold no '-' and no 'f', and whose numbers have a
      digit after every '-'. */
  lemma JpgRewrite(p0: string, d: string, band: string, nums: string)
    requires 'f' !in p0 && '-' !in p0 && 'f' !in d && '-' !in d
    requires 'f' !in nums + "." && DashThenDigit(nums + ".fits.bz2")
    requires band == "" || !IsDigit(band[0])
    ensures Replace(Replace(p0 + "frames/" + d + ("frame-" + band + "-" + nums) + ".fits.bz2",
                            "-" + band + "-", "-irg-"), "fits.bz2", "jpg")
            == p0 + "frames/" + d + ("frame-" + "irg" + "-" + nums) + ".jpg"
  {
    JpgBand(p0, d, band, nums);
    JpgExtension(p0, d, nums);
    JpgLiterals();
    Regroup(p0, "frame", "s/", d, "-irg-", nums, ".", "jpg");
  }

  lemma JpgLiterals()
    ensures "frame-" + "irg" + "-" == "frame" + "-irg-" && ".jpg" == "." + "jpg" && "frames/" == "frame" + "s/"
    ensures ".fits.bz2" == "." + "fits.bz2"
  {
  }

  /** The first replace: only the band is rewritten. */
  lemma JpgBand(p0: string, d: string, band: string, nums: string)
    requires '-' !in p0 && '-' !in d && DashThenDigit(nums + ".fits.bz2")
    requires band == "" || !IsDigit(band[0])
    ensures Replace(p0 + "frames/" + d + ("frame-" + band + "-" + nums) + ".fits.bz2", "-" + band + "-", "-irg-")
            == p0 + "frames/" + d + "frame" + "-irg-" + (nums + ".fits.bz2")
  {
    var pre := p0 + "frames/" + d;
    var tail := nums + ".fits.bz2";
    assert '-' !in pre by {
      assert '-' !in "frames/";
    }
    BandRegroup(pre, band, nums, ".fits.bz2");
    ReplaceBand(pre, band, tail);
  }

  lemma BandRegroup(pre: string, band: string, nums: string, ext: string)
    ensures pre + ("frame-" + band + "-" + nums) + ext == pre + "frame" + ("-" + band + "-") + (nums + ext)
  {
    assert "frame-" == "frame" + "-";
  }

  /** The second replace: only the extension is rewritten. */
  lemma JpgExtension(p0: string, d: string, nums: string)
    requires 'f' !in p0 && 'f' !in d && 'f' !in nums + "."
    ensures Replace(p0 + "frames/" + d + "frame" + "-irg-" + (nums + ".fits.bz2"), "fits.bz2", "jpg")
            == p0 + ("frame" + ("s/" + d) + ("frame" + ("-irg-" + (nums + ".")) + "jpg"))
  {
    var m := nums + ".";
    JpgLiterals();
    ExtensionRegroup(p0, "frame", "s/", d, "-irg-", nums, ".", "fits.bz2");
    ExtensionSwap(p0, d, m, "fits.bz2", "jpg");
  }

  lemma ExtensionRegroup(p0: string, fr: string, s: string, d: string, irg: string, nums: string,
                         dot: string, ext: string)
    ensures p0 + (fr + s) + d + fr + irg + (nums + (dot + ext))
            == p0 + (fr + (s + d) + (fr + (irg + (nums + dot)) + ext))
  {
  }

  /** A pattern starting "fi" occurs in "<p0>frames/<d>frame-irg-<m><pat>"
      only at its end when `p0`, `d` and `m` hold no 'f'. */
  lemma ExtensionSwap(p0: string, d: string, m: string, pat: string, rep: string)
    requires 'f' !in p0 && 'f' !in d && 'f' !in m
    requires |pat| >= 2 && pat[0] == 'f' && pat[1] == 'i'
    ensures Replace(p0 + ("frame" + ("s/" + d) + ("frame" + ("-irg-" + m) + pat)), pat, rep)
            == p0 + ("frame" + ("s/" + d) + ("frame" + ("-irg-" + m) + rep))
  {
    var second := "frame" + ("-irg-" + m) + pat;
    ReplaceSkip(p0, "frame" + ("s/" + d) + second, pat, rep);
    ReplaceAfterFrame("s/" + d, second, pat, rep);
    ReplaceAfterFrame("-irg-" + m, pat, pat, rep);
    ReplaceWhole(pat, rep);
  }

  lemma Regroup(p0: string, fr: string, s: string, d: string, irg: string, nums: string, dot: string, ext: string)
    ensures p0 + (fr + (s + d) + (fr + (irg + (nums + dot)) + ext))
            == p0 + (fr + s) + d + (fr + irg + nums) + (dot + ext)
  {
  }

  /** The JPEG URL is the FITS URL's directory with the "irg" frame name and
      the extension "jpg", whatever band was asked for — as long as the band
      does not start with a digit (a band "1" would also rewrite a camcol 1)
      and the numbers are not negative. */
  lemma FrameUrlJpg(run: int, camcol: int, field: int, band: string, rerun: int, dr: int)
    requires run >= 0 && camcol >= 0 && field >= 0 && rerun >= 0 && dr >= 0
    requires band == "" || !IsDigit(band[0])
    ensures FrameUrl(run, camcol, field, band, rerun, dr, true)
            == FrameDir(FrameBase(dr), rerun, run, camcol) + FrameName("irg", run, camcol, field) + ".jpg"
  {
    var p0 := PhotoObjBase(dr);
    var d := IntStr(rerun) + "/" + IntStr(run) + "/" + IntStr(camcol) + "/";
    assert 'f' !in p0 && '-' !in p0 by {
      PhotoObjBasePlain(dr);
    }
    assert 'f' !in d && '-' !in d by {
      DigitsLackLetters(IntStr(rerun));
      DigitsLackLetters(IntStr(run));
      DigitsLackLetters(IntStr(camcol));
    }
    assert FrameDir(FrameBase(dr), rerun, run, camcol) == p0 + "frames/" + d;
    FrameNumbersPlain(run, camcol, field);
    JpgRewrite(p0, d, band, FrameNumbers(run, camcol, field));
  }

  // ---------------------------------------------------------------------
  // Agreement with the other builders of frame names and URLs

  /** The r-band FITS URL of an object is its frame file name in the
      rerun-301 directory of release 17, with the extension ".fits.bz2". */
  lemma ObjFrameUrlFits(objid: Arg)
    requires DecodeObjIdArg(objid).Success?
    ensures var dc := DecodeObjIdArg(objid).value;
            ObjFrameUrl(objid, "r", false)
            == Success(FrameDir(FrameBase(17), 301, dc.run, dc.camcol) + FrameFilename(objid).value + ".fits.bz2")
  {
  }

  lemma Release16()
    ensures FrameBase(16) == FRAME_BASE_DR16
  {
    assert IntStr(16) == "16" by {
      assert NatStr(16) == NatStr(1) + [DigitChar(6)];
    }
  }

  /** `download_frame` fetches the URL `frame_url` builds for release 16 and
      rerun 301: for a FITS frame of any band, and for the "irg" JPEG that
      `frame_url` produces from a band not starting with a digit. */
  lemma DownloadFrameAgrees(field: int, run: int, camcol: int, band: string, path: string)
    requires run >= 0 && camcol >= 0 && field >= 0
    requires band == "" || !IsDigit(band[0])
    ensures DownloadFrame(field, run, camcol, band, "fits", path).value.url
            == FrameUrl(run, camcol, field, band, 301, 16, false)
    ensures DownloadFrame(field, run, camcol, "irg", "jpg", path).value.url
            == FrameUrl(run, camcol, field, band, 301, 16, true)
  {
    Release16();
    DownloadFrameFits(field, run, camcol, band, path);
    DownloadFrameJpg(field, run, camcol, "irg", path);
    FrameUrlJpg(run, camcol, field, band, 301, 16);
  }
}
