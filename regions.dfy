/** sdss/regions.py: `Region`, a field of view around (ra, dec) whose image
    is fetched on first display, and the two SQL searches for what lies
    near its centre.

    Python's `str()` of a float is the parameter `fmt`; fetching and
    decoding the JPEG at a URL is the parameter `fetch`, and the HTTP GET behind
    `sql2df` the parameter `get`, each a `Result` whose failure is the error
    the request raises; whether `float()` accepts a cell's text
    is the parameter `isFloat`. The ghost field `fetched` records every URL
    the region has fetched, in order. */
module Regions {
  import opened PyTypes
  import opened Text
  import opened Numerals
  import opened Utils
  import Objects
  import Core

  const DEFAULT_FOV: real := 0.033
  const DEFAULT_N_MAX: int := 1000

  /** `fov * (0.396127 / 0.033)`: the pixel scale, in arcseconds per pixel,
      at which `fov` degrees are shown. */
  function PixelScale(fov: real): real
  {
    fov * (0.396127 / 0.033)
  }

  /** The default field of view is shown at the survey's native scale of
      0.396127 arcseconds per pixel, and no other is; a wider field gets a
      coarser scale. */
  lemma PixelScaleNative(fov: real, wider: real)
    ensures PixelScale(fov) == 0.396127 <==> fov == DEFAULT_FOV
    ensures fov < wider ==> PixelScale(fov) < PixelScale(wider)
  {
  }

  /** A region with the default field of view opens the same cutout URL as
      an `Images` of the same centre, size and options at the default
      scale. */
  lemma RegionMatchesImages(r: Region, img: Core.Images, fmt: real -> string)
    requires r.fov == DEFAULT_FOV && img.scale == Core.DEFAULT_SCALE
    requires r.ra == img.ra && r.dec == img.dec && r.width == img.width && r.height == img.height
    requires r.opt == img.opt && r.query == img.query
    ensures r.DataUrl(fmt) == img.CreateUrl(fmt)
  {
    assert PixelScale(r.fov) == img.scale;
  }

  /** The search radius in arc minutes: the one given, or half the field of
      view, `(fov * 60) / 2`. */
  function Radius(fov: real, radius: Option<real>): (r: real)
    ensures radius.Some? ==> r == radius.value
    ensures radius.None? ==> r * 2.0 == fov * 60.0
  {
    match radius
    case Some(x) => x
    case None => (fov * 60.0) / 2.0
  }

  /** With the default field of view, the default radius is 0.99 arc
      minutes. */
  lemma DefaultRadius()
    ensures Radius(DEFAULT_FOV, None) == 0.99
  {
  }

  /** The channel `show(band)` displays: 'i', 'r' and 'g' are the image's
      channels 0, 1 and 2; any other band shows the whole image. */
  function BandChannel(band: string): Option<nat>
  {
    if band == "i" then Some(0) else if band == "r" then Some(1) else if band == "g" then Some(2) else None
  }

  /** The titles of `show3b`'s three panels. */
  const FILTERS: seq<string> := ["green (g)", "red (r)", "infrared (i)"]

  /** The band letter in a panel title, between its parentheses. */
  function TitleBand(title: string): string
    requires |title| >= 2
  {
    title[|title| - 2..|title| - 1]
  }

  /** Each panel of `show3b` shows the channel `show` shows for the band in
      its title. */
  lemma PanelsMatchBands()
    ensures forall i :: 0 <= i < |FILTERS| ==> |FILTERS[i]| >= 2 && BandChannel(TitleBand(FILTERS[i])) == Some(2 - i)
  {
    assert TitleBand(FILTERS[0]) == "g";
    assert TitleBand(FILTERS[1]) == "r";
    assert TitleBand(FILTERS[2]) == "i";
  }

  class Region {
    const ra: real
    const dec: real
    const fov: real
    const width: int
    const height: int
    const opt: string
    const query: string
    var data: Option<Pixels>
    ghost var fetched: seq<string>

    /** `Region(ra, dec, fov, width, height, opt, query)`. */
    constructor (ra: real, dec: real, fov: real := DEFAULT_FOV, width: int := 300, height: int := 300,
                 opt: string := "GS", query: string := "")
      ensures this.ra == ra && this.dec == dec && this.fov == fov
      ensures this.width == width && this.height == height && this.opt == opt && this.query == query
      ensures data == None && fetched == []
    {
      this.ra, this.dec := ra, dec;
      this.fov := fov;
      this.width := width;
      this.height := height;
      this.opt := opt;
      this.query := query;
      data := None;
      fetched := [];
    }

    /** The URL `download_data` opens: the cutout around the centre at the
        scale for the field of view. */
    function DataUrl(fmt: real -> string): string
    {
      CutoutUrl(fmt(ra), fmt(dec), fmt(PixelScale(fov)), IntStr(width), IntStr(height), opt, query)
    }

    /** `download_data()`: request the cutout at `DataUrl`; when it
        arrives, keep it. A request that raises leaves `data` as it was. */
    method DownloadData(fmt: real -> string, fetch: string -> Result<Pixels>) returns (err: Option<PyError>)
      modifies this
      ensures fetched == old(fetched) + [DataUrl(fmt)]
      ensures match fetch(DataUrl(fmt))
              case Success(p) => data == Some(p) && err.None?
              case Failure(e) => data == old(data) && err == Some(e)
    {
      var scale := PixelScale(fov);
      var url := CutoutUrl(fmt(ra), fmt(dec), fmt(scale), IntStr(width), IntStr(height), opt, query);
      fetched := fetched + [url];
      var res := fetch(url);
      match res
      case Success(p) =>
        data := Some(p);
        err := None;
      case Failure(e) =>
        err := Some(e);
    }

    /** `show(band)`: fetch unless an image is there, then display the
        band's channel `data[:,:,k]`, or the whole image; when the fetch
        raises, nothing is displayed and the error propagates, and an image
        without channel `k` raises IndexError. */
    method Show(band: string := "all", fmt: real -> string, fetch: string -> Result<Pixels>) returns (r: Result<Option<nat>>)
      modifies this
      ensures old(data).Some? ==> data == old(data) && fetched == old(fetched)
      ensures old(data).None? ==> fetched == old(fetched) + [DataUrl(fmt)]
      ensures old(data).None? && fetch(DataUrl(fmt)).Success? ==> data == Some(fetch(DataUrl(fmt)).value)
      ensures old(data).None? && fetch(DataUrl(fmt)).Failure? ==> data == None && r == Failure(fetch(DataUrl(fmt)).error)
      ensures data.Some? ==> r == Core.ChannelView(data.value, BandChannel(band))
    {
      if data.None? {
        var err := DownloadData(fmt, fetch);
        if err.Some? {
          return Failure(err.value);
        }
      }
      var channel: Option<nat>;
      if band == "i" {
        channel := Some(0);
      } else if band == "r" {
        channel := Some(1);
      } else if band == "g" {
        channel := Some(2);
      } else {
        channel := None;
      }
      if channel.Some? && !HasChannel(data.value, channel.value) {
        return Failure(IndexError);
      }
      r := Success(channel);
    }

    /** `show3b()`: fetch unless an image is there, then display channel
        `2 - i` under the `i`-th title; when the fetch raises, nothing is
        displayed and the error propagates, and an image without one of the
        channels raises IndexError. */
    method Show3b(fmt: real -> string, fetch: string -> Result<Pixels>) returns (r: Result<seq<(string, nat)>>)
      modifies this
      ensures old(data).Some? ==> data == old(data) && fetched == old(fetched)
      ensures old(data).None? ==> fetched == old(fetched) + [DataUrl(fmt)]
      ensures old(data).None? && fetch(DataUrl(fmt)).Success? ==> data == Some(fetch(DataUrl(fmt)).value)
      ensures old(data).None? && fetch(DataUrl(fmt)).Failure? ==> data == None && r == Failure(fetch(DataUrl(fmt)).error)
      ensures data.Some? ==> (r.Success? <==> forall k :: 0 <= k < |FILTERS| ==> HasChannel(data.value, k))
      ensures data.Some? && r.Failure? ==> r.error == IndexError
      ensures r.Success? ==> |r.value| == |FILTERS|
      ensures r.Success? ==> forall i :: 0 <= i < |r.value| ==> r.value[i] == (FILTERS[i], 2 - i)
    {
      if data.None? {
        var err := DownloadData(fmt, fetch);
        if err.Some? {
          return Failure(err.value);
        }
      }
      var panels := [];
      var i := 0;
      while i < |FILTERS|
        invariant 0 <= i <= |FILTERS|
        invariant |panels| == i
        invariant forall k :: 0 <= k < i ==> panels[k] == (FILTERS[k], 2 - k)
        invariant forall k :: 0 <= k < i ==> HasChannel(data.value, panels[k].1)
      {
        if !HasChannel(data.value, 2 - i) {
          return Failure(IndexError);
        }
        panels := panels + [(FILTERS[i], 2 - i)];
        i := i + 1;
      }
      assert HasChannel(data.value, panels[0].1) && HasChannel(data.value, panels[2].1);
      r := Success(panels);
    }

    /** `nearest_objects(radius, n_max, max_g)`. */
    function NearestObjects(radius: Option<real> := None, nMax: int := DEFAULT_N_MAX, maxG: Option<real> := None,
                            fmt: real -> string, get: string -> Result<string>, isFloat: string -> bool)
      : (r: Result<Table>)
      ensures var reply := Objects.SqlFrame(ObjectsScript(IntStr(nMax), fmt(ra), fmt(dec), fmt(Radius(fov, radius)),
                                                          if maxG.Some? then Some(fmt(maxG.value)) else None), get);
              && (r.Success? <==> reply.Success? && Objects.CastFloats(reply.value, OBJECT_FLOAT_COLS, isFloat).None?)
              && (r.Success? ==> r == reply)
              && (reply.Failure? ==> r == reply)
              && (reply.Success? && r.Failure? ==> r.error == Objects.CastFloats(reply.value, OBJECT_FLOAT_COLS, isFloat).value)
    {
      var g := if maxG.Some? then Some(fmt(maxG.value)) else None;
      var script := ObjectsScript(IntStr(nMax), fmt(ra), fmt(dec), fmt(Radius(fov, radius)), g);
      CastColumns(Objects.SqlFrame(script, get), OBJECT_FLOAT_COLS, isFloat)
    }

    /** `nearest_spects(radius, n_max)`. */
    function NearestSpects(radius: Option<real> := None, nMax: int := DEFAULT_N_MAX,
                           fmt: real -> string, get: string -> Result<string>, isFloat: string -> bool)
      : (r: Result<Table>)
      ensures var reply := Objects.SqlFrame(SpectsScript(IntStr(nMax), fmt(ra), fmt(dec), fmt(Radius(fov, radius))), get);
              && (r.Success? <==> reply.Success? && Objects.CastFloats(reply.value, SPECT_FLOAT_COLS, isFloat).None?)
              && (r.Success? ==> r == reply)
              && (reply.Failure? ==> r == reply)
              && (reply.Success? && r.Failure? ==> r.error == Objects.CastFloats(reply.value, SPECT_FLOAT_COLS, isFloat).value)
    {
      var script := SpectsScript(IntStr(nMax), fmt(ra), fmt(dec), fmt(Radius(fov, radius)));
      CastColumns(Objects.SqlFrame(script, get), SPECT_FLOAT_COLS, isFloat)
    }
  }

  /** `df[cols] = df[cols].astype(float)` on the frame `sql2df` returned. */
  function CastColumns(reply: Result<Table>, cols: seq<string>, isFloat: string -> bool): (r: Result<Table>)
    requires reply.Success? ==> Objects.Rectangular(reply.value)
    ensures r.Success? <==> reply.Success? && Objects.CastFloats(reply.value, cols, isFloat).None?
    ensures r.Success? ==> r == reply
    ensures reply.Failure? ==> r == reply
    ensures reply.Success? && r.Failure? ==> r.error == Objects.CastFloats(reply.value, cols, isFloat).value
  {
    match reply
    case Failure(e) => Failure(e)
    case Success(t) =>
      match Objects.CastFloats(t, cols, isFloat)
      case Some(e) => Failure(e)
      case None => Success(t)
  }

  const OBJECT_FLOAT_COLS: seq<string> := ["distance", "ra", "dec", "u", "g", "r", "i", "z"]
  const SPECT_FLOAT_COLS: seq<string> := ["distance", "ra", "dec", "u", "g", "r", "i", "z", "redshift", "zErr"]

  // ---------------------------------------------------------------------
  // The two queries

  const SELECT_TOP: string := "SELECT TOP "

  const OBJECT_COLS: string :=
    " f.objID, f.type, f.distance,\n"
    + "        p.specObjID, p.ra, p.dec, p.u, p.g, p.r, p.i, p.z\n"
    + "        FROM "

  const OBJECT_FUNCTION: string := "dbo.fGetNearbyObjAllEq"

  const OBJECT_JOIN: string := " AS f\n        JOIN PhotoObj AS p ON p.objID = f.objID "

  const SPECT_COLS: string :=
    " \n"
    + "        sp.objID, f.specObjID, f.distance, sp.ra, sp.dec, sp.class, sp.subClass,\n"
    + "        sp.modelMag_u AS u, sp.modelMag_g AS g, sp.modelMag_r AS r, sp.modelMag_i AS i, sp.modelMag_z AS z, \n"
    + "        f.z AS redshift, f.zErr, f.zWarning\n"
    + "        FROM "

  const SPECT_FUNCTION: string := "dbo.fGetNearbySpecObjEq"

  const SPECT_JOIN: string := " AS f\n        JOIN SpecPhoto AS sp ON sp.specObjID = f.specObjID"

  const ORDER_BY: string := "\n        ORDER BY f.distance"

  /** `f"WHERE p.g<{max_g}"`, or nothing without a bound. */
  function Where(maxG: Option<string>): string
  {
    match maxG
    case Some(g) => "WHERE p.g<" + g
    case None => ""
  }

  /** "(ra,dec,radius)" */
  function Call(ra: string, dec: string, radius: string): string
  {
    "(" + ra + "," + dec + "," + radius + ")"
  }

  /** The layout both scripts share: the top `n_max` rows of the columns,
      from the table function applied to its arguments, joined, sorted by
      distance. */
  function Query(nMax: string, cols: string, fn: string, args: string, join: string): string
  {
    SELECT_TOP + nMax + cols + fn + args + join + ORDER_BY
  }

  /** The script of `nearest_objects`, from the text of its values. */
  function ObjectsScript(nMax: string, ra: string, dec: string, radius: string, maxG: Option<string>): string
  {
    Query(nMax, OBJECT_COLS, OBJECT_FUNCTION, Call(ra, dec, radius), OBJECT_JOIN + Where(maxG))
  }

  /** The script of `nearest_spects`, from the text of its values. */
  function SpectsScript(nMax: string, ra: string, dec: string, radius: string): string
  {
    Query(nMax, SPECT_COLS, SPECT_FUNCTION, Call(ra, dec, radius), SPECT_JOIN)
  }

  /** The arguments of a call whose '(' is at `k`: the text up to the next
      ')', cut at ','. */
  function ArgsAt(s: string, k: nat): seq<string>
    requires k < |s|
  {
    var rest := s[k + 1..];
    Split(rest[..IndexOf(rest, ')')], ',')
  }

  /** A value as it may appear between the parentheses of a call. */
  predicate PlainArg(a: string)
  {
    ')' !in a && ',' !in a
  }

  /** A call reads back as exactly (ra, dec, radius), in that order. */
  lemma CallReadsBack(pre: string, ra: string, dec: string, radius: string, post: string)
    requires PlainArg(ra) && PlainArg(dec) && PlainArg(radius)
    ensures var s := pre + Call(ra, dec, radius) + post;
            |pre| < |s| && s[|pre|] == '(' && ArgsAt(s, |pre|) == [ra, dec, radius]
  {
    var args := ra + "," + dec + "," + radius;
    var s := pre + Call(ra, dec, radius) + post;
    assert s == pre + ("(" + (args + (")" + post)));
    ArgsClose(args, post, ra, dec, radius);
    ArgsSplit(ra, dec, radius);
    assert s[|pre| + 1..] == args + (")" + post);
  }

  /** The arguments end at the first ')' after them. */
  lemma ArgsClose(args: string, post: string, ra: string, dec: string, radius: string)
    requires args == ra + "," + dec + "," + radius
    requires PlainArg(ra) && PlainArg(dec) && PlainArg(radius)
    ensures var rest := args + (")" + post);
            IndexOf(rest, ')') == |args| && rest[..|args|] == args
  {
    assert ')' !in args;
    IndexOfFirst(args, ")" + post, ')');
  }

  /** Three plain arguments joined by ',' split back into themselves. */
  lemma ArgsSplit(ra: string, dec: string, radius: string)
    requires PlainArg(ra) && PlainArg(dec) && PlainArg(radius)
    ensures Split(ra + "," + dec + "," + radius, ',') == [ra, dec, radius]
  {
    assert Join([ra, dec, radius], ",") == ra + "," + dec + "," + radius by {
      assert Join([radius], ",") == radius;
      assert [dec, radius][1..] == [radius];
      assert [ra, dec, radius][1..] == [dec, radius];
    }
    SplitJoin([ra, dec, radius], ',');
  }

  /** In every script of this layout the table function is applied, right
      where its name ends, to exactly (ra, dec, radius); the script opens
      with "SELECT TOP n_max" and closes with "ORDER BY f.distance". */
  lemma QueryReadsBack(nMax: string, cols: string, fn: string, ra: string, dec: string, radius: string,
                       join: string)
    requires PlainArg(ra) && PlainArg(dec) && PlainArg(radius)
    ensures var s := Query(nMax, cols, fn, Call(ra, dec, radius), join);
            var k := |SELECT_TOP + nMax + cols + fn|;
            && k < |s| && s[k - |fn|..k] == fn && s[k] == '(' && ArgsAt(s, k) == [ra, dec, radius]
            && s[..|SELECT_TOP + nMax|] == SELECT_TOP + nMax
            && |s| >= |ORDER_BY| && s[|s| - |ORDER_BY|..] == ORDER_BY
  {
    var top := SELECT_TOP + nMax;
    assert Query(nMax, cols, fn, Call(ra, dec, radius), join)
           == top + cols + fn + Call(ra, dec, radius) + join + ORDER_BY;
    LayoutReadsBack(top, cols, fn, ra, dec, radius, join, ORDER_BY);
  }

  /** `QueryReadsBack` for any opening and closing text. */
  lemma LayoutReadsBack(top: string, cols: string, fn: string, ra: string, dec: string, radius: string,
                        join: string, order: string)
    requires PlainArg(ra) && PlainArg(dec) && PlainArg(radius)
    ensures var s := top + cols + fn + Call(ra, dec, radius) + join + order;
            var k := |top + cols + fn|;
            && k < |s| && s[k - |fn|..k] == fn && s[k] == '(' && ArgsAt(s, k) == [ra, dec, radius]
            && s[..|top|] == top && |s| >= |order| && s[|s| - |order|..] == order
  {
    var pre := top + cols + fn;
    var s := top + cols + fn + Call(ra, dec, radius) + join + order;
    assert s == pre + Call(ra, dec, radius) + (join + order);
    CallReadsBack(pre, ra, dec, radius, join + order);
    assert s[|pre| - |fn|..|pre|] == fn;
    LayoutEnds(top, cols + fn + Call(ra, dec, radius) + join, order);
    assert s == top + (cols + fn + Call(ra, dec, radius) + join) + order;
  }

  lemma LayoutEnds(a: string, m: string, b: string)
    ensures var s := a + m + b;
            s[..|a|] == a && |s| >= |b| && s[|s| - |b|..] == b
  {
  }

  /** `nearest_objects` asks for the top `n_max` rows of
      `dbo.fGetNearbyObjAllEq(ra, dec, radius)`, sorted by distance. */
  lemma ObjectsQuery(nMax: string, ra: string, dec: string, radius: string, maxG: Option<string>)
    requires PlainArg(ra) && PlainArg(dec) && PlainArg(radius)
    ensures var s := ObjectsScript(nMax, ra, dec, radius, maxG);
            var k := |SELECT_TOP + nMax + OBJECT_COLS + OBJECT_FUNCTION|;
            && k < |s| && s[k - |OBJECT_FUNCTION|..k] == OBJECT_FUNCTION && s[k] == '('
            && ArgsAt(s, k) == [ra, dec, radius]
            && s[..|SELECT_TOP + nMax|] == SELECT_TOP + nMax
            && |s| >= |ORDER_BY| && s[|s| - |ORDER_BY|..] == ORDER_BY
  {
    QueryReadsBack(nMax, OBJECT_COLS, OBJECT_FUNCTION, ra, dec, radius, OBJECT_JOIN + Where(maxG));
  }

  /** `nearest_spects` asks for the top `n_max` rows of
      `dbo.fGetNearbySpecObjEq(ra, dec, radius)`, sorted by distance. */
  lemma SpectsQuery(nMax: string, ra: string, dec: string, radius: string)
    requires PlainArg(ra) && PlainArg(dec) && PlainArg(radius)
    ensures var s := SpectsScript(nMax, ra, dec, radius);
            var k := |SELECT_TOP + nMax + SPECT_COLS + SPECT_FUNCTION|;
            && k < |s| && s[k - |SPECT_FUNCTION|..k] == SPECT_FUNCTION && s[k] == '('
            && ArgsAt(s, k) == [ra, dec, radius]
            && s[..|SELECT_TOP + nMax|] == SELECT_TOP + nMax
            && |s| >= |ORDER_BY| && s[|s| - |ORDER_BY|..] == ORDER_BY
  {
    QueryReadsBack(nMax, SPECT_COLS, SPECT_FUNCTION, ra, dec, radius, SPECT_JOIN);
  }

  /** A bound on g adds "WHERE p.g<bound" to the script without one, right
      after the join condition and before the ordering; nothing else
      changes. */
  lemma ObjectsWhere(nMax: string, ra: string, dec: string, radius: string, g: string)
    ensures var plain := ObjectsScript(nMax, ra, dec, radius, None);
            var k := |plain| - |ORDER_BY|;
            && |OBJECT_JOIN| <= k <= |plain|
            && plain[k - |OBJECT_JOIN|..k] == OBJECT_JOIN
            && ObjectsScript(nMax, ra, dec, radius, Some(g)) == plain[..k] + ("WHERE p.g<" + g) + plain[k..]
  {
    var pre := SELECT_TOP + nMax + OBJECT_COLS + OBJECT_FUNCTION + Call(ra, dec, radius);
    InsertBefore(pre, OBJECT_JOIN, "WHERE p.g<" + g, ORDER_BY);
  }

  lemma InsertBefore(pre: string, join: string, w: string, tail: string)
    ensures var plain := pre + (join + "") + tail;
            var k := |plain| - |tail|;
            && |join| <= k <= |plain|
            && plain[k - |join|..k] == join
            && pre + (join + w) + tail == plain[..k] + w + plain[k..]
  {
    var plain := pre + (join + "") + tail;
    assert join + "" == join;
    var k := |plain| - |tail|;
    assert plain[..k] == pre + join;
    assert plain[k..] == tail;
  }
}
