/** sdss/photometry2.py: a second `frame_filename` and the three local
    paths the script derives from it for one object — the compressed FITS
    file, the FITS file `unzip` writes next to it, and the JPEG file. */
module Photometry2 {
  import opened PyTypes
  import opened Text
  import opened Numerals
  import opened Utils
  import Photometry

  /** The object the script works on. */
  const OBJID: int := 1237646587710014999

  /** `frame_filename(objid)` as this module writes it: "frame-r-", the
      run zero-padded to 6, the camcol, the field zero-padded to 4. */
  function FrameFilename(objid: Arg): (r: Result<string>)
    ensures r.Success? <==> DecodeObjIdArg(objid).Success?
    ensures r.Failure? ==> r.error == DecodeObjIdArg(objid).error
  {
    match DecodeObjIdArg(objid)
    case Failure(e) => Failure(e)
    case Success(dc) => Success(RFilename(dc.run, dc.camcol, dc.field))
  }

  /** The f-string of `frame_filename`. */
  function RFilename(run: int, camcol: int, field: int): string
  {
    var run6 := ZFill(IntStr(run), 6);
    var field4 := ZFill(IntStr(field), 4);
    "frame-r-" + run6 + "-" + IntStr(camcol) + "-" + field4
  }

  /** The two `frame_filename`s give the same result for every argument. */
  lemma SameFrameFilename(objid: Arg)
    ensures FrameFilename(objid) == Photometry.FrameFilename(objid)
  {
    if DecodeObjIdArg(objid).Success? {
      var dc := DecodeObjIdArg(objid).value;
      SameName(dc.run, dc.camcol, dc.field);
    }
  }

  lemma SameName(run: int, camcol: int, field: int)
    ensures RFilename(run, camcol, field) == FrameName("r", run, camcol, field)
  {
    var run6, cam, field4 := ZFill(IntStr(run), 6), IntStr(camcol), ZFill(IntStr(field), 4);
    RGroup(run6, cam, field4);
  }

  lemma RGroup(a: string, b: string, c: string)
    ensures "frame-r-" + a + "-" + b + "-" + c == "frame-" + "r" + "-" + (a + "-" + b + "-" + c)
  {
    assert "frame-r-" == "frame-" + "r" + "-";
  }

  /** The name starts "frame-r-" and holds the run at least 6 digits wide,
      the camcol and the field at least 4 digits wide, each reading back as
      the decoded value. */
  lemma FrameFilenameShape(objid: Arg)
    requires DecodeObjIdArg(objid).Success?
    ensures var dc := DecodeObjIdArg(objid).value;
            var f := FrameFilename(objid).value;
            var parts := Split(f, '-');
            && |f| >= 8 && f[..8] == "frame-r-"
            && |parts| == 5 && parts[0] == "frame" && parts[1] == "r"
            && ParseInt(parts[2]) == Some(dc.run as int) && |parts[2]| >= 6
            && ParseInt(parts[3]) == Some(dc.camcol as int)
            && ParseInt(parts[4]) == Some(dc.field as int) && |parts[4]| >= 4
  {
    SameFrameFilename(objid);
    Photometry.FrameFilenameFields(objid);
  }

  /** `s[:-k]`: all but the last `k` characters, or "" when `s` is
      shorter; `s[:-0]` is `s[:0]`, which is "" too. */
  function DropLast(s: string, k: nat): (r: string)
    ensures 0 < k <= |s| ==> s == r + s[|s| - k..]
    ensures |r| == if 0 < k <= |s| then |s| - k else 0
  {
    if 0 < k <= |s| then s[..|s| - k] else ""
  }

  /** `zip_adr`: the compressed FITS file under "data/". */
  function ZipAdr(objid: Arg): (r: Result<string>)
    ensures r.Success? <==> DecodeObjIdArg(objid).Success?
  {
    match FrameFilename(objid)
    case Failure(e) => Failure(e)
    case Success(f) => Success("data/" + f + ".fits.bz2")
  }

  /** `fits_adr = zip_adr[:-4]`, which is also the file `unzip(zip_adr)`
      writes. */
  function FitsAdr(objid: Arg): (r: Result<string>)
    ensures r.Success? <==> DecodeObjIdArg(objid).Success?
  {
    match ZipAdr(objid)
    case Failure(e) => Failure(e)
    case Success(z) => Success(DropLast(z, 4))
  }

  /** `jpg_adr`: `fits_adr` with "-r-" replaced by "-irg-", then "fits" by
      "jpg". */
  function JpgAdr(objid: Arg): (r: Result<string>)
    ensures r.Success? <==> DecodeObjIdArg(objid).Success?
  {
    match FitsAdr(objid)
    case Failure(e) => Failure(e)
    case Success(f) => Success(Replace(Replace(f, "-r-", "-irg-"), "fits", "jpg"))
  }

  /** Cutting 4 characters off the compressed name removes exactly ".bz2". */
  lemma FitsAdrDropsBz2(objid: Arg)
    requires DecodeObjIdArg(objid).Success?
    ensures FitsAdr(objid).value == "data/" + FrameFilename(objid).value + ".fits"
    ensures ZipAdr(objid).value == FitsAdr(objid).value + ".bz2"
  {
    DropBz2(FrameFilename(objid).value);
  }

  lemma DropBz2(f: string)
    ensures DropLast("data/" + f + ".fits.bz2", 4) == "data/" + f + ".fits"
    ensures "data/" + f + ".fits.bz2" == "data/" + f + ".fits" + ".bz2"
  {
    var z := "data/" + f + ".fits.bz2";
    assert ".fits.bz2" == ".fits" + ".bz2";
    assert z == ("data/" + f + ".fits") + ".bz2";
    assert z[..|z| - 4] == "data/" + f + ".fits";
  }

  /** The JPEG path is "data/" with the "irg" frame name and ".jpg": only the
      band and the extension change. */
  lemma JpgAdrIrg(objid: Arg)
    requires DecodeObjIdArg(objid).Success?
    ensures var dc := DecodeObjIdArg(objid).value;
            JpgAdr(objid).value == "data/" + FrameName("irg", dc.run, dc.camcol, dc.field) + ".jpg"
  {
    var dc := DecodeObjIdArg(objid).value;
    var nums := FrameNumbers(dc.run, dc.camcol, dc.field);
    assert FitsAdr(objid).value == "data/" + ("frame-" + "r" + "-" + nums) + ".fits" by {
      FitsAdrDropsBz2(objid);
      SameFrameFilename(objid);
    }
    NumbersThenFits(dc.run, dc.camcol, dc.field);
    JpgOfFits(nums);
  }

  /** The two replaces of `jpg_adr` on "data/frame-r-<nums>.fits". */
  lemma JpgOfFits(nums: string)
    requires DashThenDigit(nums + ".fits") && 'f' !in nums + "."
    ensures Replace(Replace("data/" + ("frame-" + "r" + "-" + nums) + ".fits", "-r-", "-irg-"), "fits", "jpg")
            == "data/" + ("frame-" + "irg" + "-" + nums) + ".jpg"
  {
    FitsBand(nums);
    NameExtensionSwap("data/", nums + ".", "fits", "jpg");
    JpgRegroup(nums);
  }

  /** The first replace of `jpg_adr`: only the band is rewritten. */
  lemma FitsBand(nums: string)
    requires DashThenDigit(nums + ".fits")
    ensures Replace("data/" + ("frame-" + "r" + "-" + nums) + ".fits", "-r-", "-irg-")
            == "data/" + ("frame" + ("-irg-" + (nums + ".")) + "fits")
  {
    Photometry.BandRegroup("data/", "r", nums, ".fits");
    Photometry.ReplaceBand("data/", "r", nums + ".fits");
    assert "-r-" == "-" + "r" + "-";
    DotFits("data/" + "frame" + "-irg-", nums);
  }

  lemma DotFits(p: string, nums: string)
    ensures p + (nums + ".fits") == p + (nums + ".") + "fits"
  {
    assert ".fits" == "." + "fits";
  }

  lemma JpgRegroup(nums: string)
    ensures "data/" + ("frame" + ("-irg-" + (nums + ".")) + "jpg")
            == "data/" + ("frame-" + "irg" + "-" + nums) + ".jpg"
  {
    assert "frame-" + "irg" + "-" == "frame" + "-irg-" && ".jpg" == "." + "jpg";
  }

  /** Every '-' of the numbers followed by ".fits" is followed by a digit,
      and there is no 'f' before the extension. */
  lemma NumbersThenFits(run: nat, camcol: nat, field: nat)
    ensures DashThenDigit(FrameNumbers(run, camcol, field) + ".fits")
    ensures 'f' !in FrameNumbers(run, camcol, field) + "."
  {
    var nums := FrameNumbers(run, camcol, field);
    Photometry.FrameNumbersPlain(run, camcol, field);
    var long := nums + ".fits.bz2";
    assert long[..|nums| + 5] == nums + ".fits";
    DashThenDigitPrefix(long, |nums| + 5);
  }

  /** A prefix that does not end in '-' keeps every dash followed by a digit. */
  lemma DashThenDigitPrefix(s: string, k: nat)
    requires DashThenDigit(s) && 0 < k <= |s| && s[k - 1] != '-'
    ensures DashThenDigit(s[..k])
  {
    var p := s[..k];
    forall i | 0 <= i < |p| && p[i] == '-'
      ensures i + 1 < |p| && IsDigit(p[i + 1])
    {
      assert s[i] == '-';
    }
  }

  /** A pattern starting "fi" occurs in "<p0>frame-irg-<m><pat>" only at its
      end when `p0` and `m` hold no 'f'. */
  lemma NameExtensionSwap(p0: string, m: string, pat: string, rep: string)
    requires 'f' !in p0 && 'f' !in m
    requires |pat| >= 2 && pat[0] == 'f' && pat[1] == 'i'
    ensures Replace(p0 + ("frame" + ("-irg-" + m) + pat), pat, rep)
            == p0 + ("frame" + ("-irg-" + m) + rep)
  {
    ReplaceSkip(p0, "frame" + ("-irg-" + m) + pat, pat, rep);
    Photometry.ReplaceAfterFrame("-irg-" + m, pat, pat, rep);
    Photometry.ReplaceWhole(pat, rep);
  }

  /** The files the script downloads are named after what it fetches: the
      r-band FITS URL ends in the compressed file's name, and the "irg"
      JPEG URL ends in the JPEG file's name. */
  lemma DownloadNamesAgree(objid: Arg)
    requires DecodeObjIdArg(objid).Success?
    ensures var dc := DecodeObjIdArg(objid).value;
            var dir := FrameDir(Photometry.FrameBase(17), 301, dc.run, dc.camcol);
            && ZipAdr(objid).value == "data/" + Photometry.FrameFilename(objid).value + ".fits.bz2"
            && Photometry.ObjFrameUrl(objid, "r", false).value
               == dir + Photometry.FrameFilename(objid).value + ".fits.bz2"
            && Photometry.ObjFrameUrl(objid, "irg", true).value
               == dir + FrameName("irg", dc.run, dc.camcol, dc.field) + ".jpg"
            && JpgAdr(objid).value == "data/" + FrameName("irg", dc.run, dc.camcol, dc.field) + ".jpg"
  {
    var dc := DecodeObjIdArg(objid).value;
    SameFrameFilename(objid);
    Photometry.ObjFrameUrlFits(objid);
    Photometry.FrameUrlJpg(dc.run, dc.camcol, dc.field, "irg", 301, 17);
    JpgAdrIrg(objid);
  }

  /** The paths of the script's own object. */
  lemma ScriptPaths()
    ensures DecodeObjIdArg(IntArg(OBJID)).Success?
    ensures var dc := DecodeObjIdArg(IntArg(OBJID)).value;
            && FitsAdr(IntArg(OBJID)).value == "data/" + FrameName("r", dc.run, dc.camcol, dc.field) + ".fits"
            && JpgAdr(IntArg(OBJID)).value == "data/" + FrameName("irg", dc.run, dc.camcol, dc.field) + ".jpg"
  {
    DecodeNonNegative(OBJID);
    FitsAdrDropsBz2(IntArg(OBJID));
    SameFrameFilename(IntArg(OBJID));
    JpgAdrIrg(IntArg(OBJID));
  }
}
