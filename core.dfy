/** sdss/core.py: `Images`, a cutout image of the sky around (ra, dec)
    that is fetched on first display and kept afterwards.

    Python's `str()` of a float is the parameter `fmt`; fetching and
    decoding the JPEG at a URL is the parameter `fetch`, a `Result` whose
    failure is the error the request raises. The ghost field `fetched`
    records every URL the object has requested, in order. */
module Core {
  import opened PyTypes
  import opened Numerals
  import opened Text
  import opened Utils

  const DEFAULT_SCALE: real := 0.396127
  const DEFAULT_WIDTH: int := 300
  const DEFAULT_HEIGHT: int := 300
  const DEFAULT_OPT: string := "GS"
  const DEFAULT_QUERY: string := ""

  /** The channel `show(band)` displays: 'u', 'g' and 'r' are the image's
      channels 0, 1 and 2; any other band shows the whole image. */
  function BandChannel(band: string): Option<nat>
  {
    if band == "u" then Some(0) else if band == "g" then Some(1) else if band == "r" then Some(2) else None
  }

  /** The titles of `show_separated`'s three panels. */
  const PANEL_TITLES: seq<string> := ["u-band", "g-band", "r-band"]

  /** The panel titled "<b>-band" shows the channel `show(b)` shows. */
  lemma PanelsMatchBands()
    ensures forall i :: 0 <= i < |PANEL_TITLES| ==>
              |PANEL_TITLES[i]| >= 1 && BandChannel(PANEL_TITLES[i][..1]) == Some(i)
  {
    assert PANEL_TITLES[0][..1] == "u";
    assert PANEL_TITLES[1][..1] == "g";
    assert PANEL_TITLES[2][..1] == "r";
  }

  class Images {
    const ra: real
    const dec: real
    const scale: real
    const width: int
    const height: int
    const opt: string
    const query: string
    var data: Option<Pixels>
    var loaded: bool
    ghost var fetched: seq<string>

    /** `loaded` is set exactly when the image has been fetched. */
    ghost predicate Valid()
      reads this
    {
      loaded <==> data.Some?
    }

    constructor (ra: real, dec: real, scale: real := DEFAULT_SCALE, width: int := DEFAULT_WIDTH,
                 height: int := DEFAULT_HEIGHT, opt: string := DEFAULT_OPT, query: string := DEFAULT_QUERY)
      ensures Valid()
      ensures this.ra == ra && this.dec == dec && this.scale == scale
      ensures this.width == width && this.height == height && this.opt == opt && this.query == query
      ensures data == None && !loaded && fetched == []
    {
      this.ra, this.dec := ra, dec;
      this.scale := scale;
      this.width := width;
      this.height := height;
      this.opt := opt;
      this.query := query;
      data := None;
      loaded := false;
      fetched := [];
    }

    /** `create_url()`: the cutout service's URL for this object's fields,
        the same URL `img_cutout` opens for the same arguments. */
    function CreateUrl(fmt: real -> string): (url: string)
      ensures |url| > |CUTOUT_BASE| && url[..|CUTOUT_BASE|] == CUTOUT_BASE
    {
      CutoutUrlJoin(fmt(ra), fmt(dec), fmt(scale), IntStr(width), IntStr(height), opt, query);
      CutoutUrl(fmt(ra), fmt(dec), fmt(scale), IntStr(width), IntStr(height), opt, query)
    }

    /** `image_data()`: request the image at `create_url()`; when it
        arrives, keep it and mark it loaded. A request that raises leaves
        `data` and `loaded` as they were. */
    method ImageData(fmt: real -> string, fetch: string -> Result<Pixels>) returns (err: Option<PyError>)
      requires Valid()
      modifies this
      ensures Valid()
      ensures fetched == old(fetched) + [CreateUrl(fmt)]
      ensures match fetch(CreateUrl(fmt))
              case Success(p) => data == Some(p) && loaded && err.None?
              case Failure(e) => data == old(data) && loaded == old(loaded) && err == Some(e)
    {
      var url := CreateUrl(fmt);
      fetched := fetched + [url];
      var res := fetch(url);
      match res
      case Success(p) =>
        data := Some(p);
        loaded := true;
        err := None;
      case Failure(e) =>
        err := Some(e);
    }

    /** The fetch at the start of `show()` and `show_separated()`: only when
        nothing is loaded yet; an image already loaded is kept. */
    method EnsureLoaded(fmt: real -> string, fetch: string -> Result<Pixels>) returns (err: Option<PyError>)
      requires Valid()
      modifies this
      ensures Valid()
      ensures FetchRule(old(loaded), old(data), old(fetched), loaded, data, fetched,
                        CreateUrl(fmt), fetch(CreateUrl(fmt)))
      ensures loaded ==> err.None?
      ensures !loaded ==> err == Some(fetch(CreateUrl(fmt)).error)
    {
      err := None;
      if !loaded {
        err := ImageData(fmt, fetch);
      }
    }

    /** `show(band)`: the image it displays is the one loaded before, or
        the one fetched now; of it, the band's channel `data[:,:,k]`, or
        the whole image. When the fetch raises, nothing is displayed; an
        image without channel `k` raises IndexError. */
    method Show(band: string := "all", fmt: real -> string, fetch: string -> Result<Pixels>) returns (r: Result<Option<nat>>)
      requires Valid()
      modifies this
      ensures Valid()
      ensures FetchRule(old(loaded), old(data), old(fetched), loaded, data, fetched,
                        CreateUrl(fmt), fetch(CreateUrl(fmt)))
      ensures !loaded ==> r == Failure(fetch(CreateUrl(fmt)).error)
      ensures loaded ==> r == ChannelView(data.value, BandChannel(band))
    {
      var err := EnsureLoaded(fmt, fetch);
      if err.Some? {
        return Failure(err.value);
      }
      var channel: Option<nat>;
      if band == "u" {
        channel := Some(0);
      } else if band == "g" {
        channel := Some(1);
      } else if band == "r" {
        channel := Some(2);
      } else {
        channel := None;
      }
      if channel.Some? && !HasChannel(data.value, channel.value) {
        return Failure(IndexError);
      }
      r := Success(channel);
    }

    /** `show_separated()`: the same fetch rule as `show`, then channel `i`
        under the `i`-th title; an image without channels 0, 1 and 2
        raises IndexError. */
    method ShowSeparated(fmt: real -> string, fetch: string -> Result<Pixels>) returns (r: Result<seq<(string, nat)>>)
      requires Valid()
      modifies this
      ensures Valid()
      ensures FetchRule(old(loaded), old(data), old(fetched), loaded, data, fetched,
                        CreateUrl(fmt), fetch(CreateUrl(fmt)))
      ensures !loaded ==> r == Failure(fetch(CreateUrl(fmt)).error)
      ensures loaded ==> r == SeparatedView(data.value)
    {
      var err := EnsureLoaded(fmt, fetch);
      if err.Some? {
        return Failure(err.value);
      }
      if !HasChannel(data.value, 0) || !HasChannel(data.value, 1) || !HasChannel(data.value, 2) {
        return Failure(IndexError);
      }
      var panels := [("u-band", 0), ("g-band", 1), ("r-band", 2)];
      assert panels == [(PANEL_TITLES[0], 0), (PANEL_TITLES[1], 1), (PANEL_TITLES[2], 2)];
      r := Success(panels);
    }
  }

  /** What displaying `channel` of `p` gives (`None`: the whole image):
      the channel shown, or the IndexError of `data[:,:,k]` on an image
      without channel `k`. */
  function ChannelView(p: Pixels, channel: Option<nat>): Result<Option<nat>>
  {
    match channel
    case None => Success(None)
    case Some(k) => if HasChannel(p, k) then Success(Some(k)) else Failure(IndexError)
  }

  /** What `show_separated` gives for `p`: the three titled panels, or
      IndexError when `p` lacks one of the channels 0, 1 and 2. */
  function SeparatedView(p: Pixels): Result<seq<(string, nat)>>
  {
    if HasChannel(p, 0) && HasChannel(p, 1) && HasChannel(p, 2)
    then Success([(PANEL_TITLES[0], 0), (PANEL_TITLES[1], 1), (PANEL_TITLES[2], 2)])
    else Failure(IndexError)
  }

  /** The error a display raises once the image `p` is loaded: `Some(b)`
      for `show(b)`, `None` for `show_separated()`. */
  function DisplayError(p: Pixels, call: Option<string>): Option<PyError>
  {
    match call
    case Some(band) => if ChannelView(p, BandChannel(band)).Failure? then Some(IndexError) else None
    case None => if SeparatedView(p).Failure? then Some(IndexError) else None
  }

  /** The fetch rule of one display, on the values before (`0`) and after
      (`1`): while an image is loaded nothing is requested and nothing
      changes; otherwise `url` is requested once, and its image is kept when
      it arrives (`res` is a success); when the request raises nothing is
      loaded. */
  ghost predicate FetchRule(loaded0: bool, data0: Option<Pixels>, log0: seq<string>,
                            loaded1: bool, data1: Option<Pixels>, log1: seq<string>,
                            url: string, res: Result<Pixels>)
  {
    if loaded0 then loaded1 && data1 == data0 && log1 == log0
    else
      && log1 == log0 + [url]
      && match res
         case Success(p) => loaded1 && data1 == Some(p)
         case Failure(_) => !loaded1 && data1 == data0
  }

  /** The position of the first answer to `url` that succeeds, or
      `|fetches|` when none does. */
  function FirstSuccess(fetches: seq<string -> Result<Pixels>>, url: string): (n: nat)
    ensures n <= |fetches|
    ensures forall j :: 0 <= j < n ==> fetches[j](url).Failure?
    ensures n < |fetches| ==> fetches[n](url).Success?
  {
    if fetches == [] then 0
    else if fetches[0](url).Success? then 0
    else 1 + FirstSuccess(fetches[1..], url)
  }

  /** One display, `Some(b)` for `show(b)` and `None` for
      `show_separated()`, with the error it raised, if any. */
  method Display(img: Images, call: Option<string>, fmt: real -> string, fetch: string -> Result<Pixels>)
    returns (err: Option<PyError>)
    requires img.Valid()
    modifies img
    ensures img.Valid()
    ensures FetchRule(old(img.loaded), old(img.data), old(img.fetched), img.loaded, img.data, img.fetched,
                      img.CreateUrl(fmt), fetch(img.CreateUrl(fmt)))
    ensures !img.loaded ==> err == Some(fetch(img.CreateUrl(fmt)).error)
    ensures img.loaded ==> err == DisplayError(img.data.value, call)
  {
    match call
    case Some(band) =>
      var r := img.Show(band, fmt, fetch);
      err := if r.Failure? then Some(r.error) else None;
    case None =>
      var r := img.ShowSeparated(fmt, fetch);
      err := if r.Failure? then Some(r.error) else None;
  }

  /** What the first `|errs|` displays of a run have done, on the values
      before (`0`) and now, with `first` the first answer that succeeds:
      the calls up to `first` each requested `url` once and later calls
      none; the calls before `first` raised their request's error; from
      `first` on the image is the one `first` brought, and each call raised
      what the loaded image makes it raise. */
  ghost predicate RunSoFar(loaded0: bool, data0: Option<Pixels>, log0: seq<string>,
                           loaded: bool, data: Option<Pixels>, log: seq<string>,
                           url: string, fetches: seq<string -> Result<Pixels>>,
                           calls: seq<Option<string>>, errs: seq<Option<PyError>>)
    requires |errs| <= |calls| == |fetches|
  {
    var i, first := |errs|, FirstSuccess(fetches, url);
    && |log| == |log0| + (if loaded0 then 0 else if first < i then first + 1 else i)
    && log[..|log0|] == log0
    && (forall k :: |log0| <= k < |log| ==> log[k] == url)
    && (loaded <==> loaded0 || first < i)
    && (loaded0 ==> data == data0)
    && (!loaded0 && first < i ==> data == Some(fetches[first](url).value))
    && (forall j :: 0 <= j < i && !loaded0 && j < first ==> errs[j] == Some(fetches[j](url).error))
    && (forall j :: 0 <= j < i && (loaded0 || first <= j) && data.Some? ==> errs[j] == DisplayError(data.value, calls[j]))
  }

  /** One more display keeps `RunSoFar`. */
  lemma RunStep(loaded0: bool, data0: Option<Pixels>, log0: seq<string>,
                loaded: bool, data: Option<Pixels>, log: seq<string>,
                loaded1: bool, data1: Option<Pixels>, log1: seq<string>,
                url: string, fetches: seq<string -> Result<Pixels>>,
                calls: seq<Option<string>>, errs: seq<Option<PyError>>, err: Option<PyError>)
    requires |errs| < |calls| == |fetches|
    requires (loaded <==> data.Some?) && (loaded1 <==> data1.Some?)
    requires RunSoFar(loaded0, data0, log0, loaded, data, log, url, fetches, calls, errs)
    requires FetchRule(loaded, data, log, loaded1, data1, log1, url, fetches[|errs|](url))
    requires !loaded1 ==> err == Some(fetches[|errs|](url).error)
    requires loaded1 ==> err == DisplayError(data1.value, calls[|errs|])
    ensures RunSoFar(loaded0, data0, log0, loaded1, data1, log1, url, fetches, calls, errs + [err])
  {
    var i, first := |errs|, FirstSuccess(fetches, url);
    var errs1 := errs + [err];
    assert forall j :: 0 <= j < i ==> errs1[j] == errs[j];
    if !loaded {
      assert !loaded0 && i <= first;
      if fetches[i](url).Success? {
        assert first == i;
      }
      assert log1[..|log|] == log;
      assert log1[..|log0|] == log0;
    }
  }

  /** Any sequence of displays, `Some(b)` for `show(b)` and `None` for
      `show_separated()`, the `i`-th answered by the network as `fetches[i]`
      answers, with `first` the first answer that succeeds: an image loaded
      before is never requested again, and its calls raise only what the
      image makes them raise; otherwise exactly the calls up to `first`
      request `create_url()`, those before it raise their request's error,
      and from `first` on the image is the one `first` brought and each
      call raises only what that image makes it raise. */
  method ShowRepeatedly(img: Images, calls: seq<Option<string>>, fmt: real -> string,
                        fetches: seq<string -> Result<Pixels>>)
    returns (errs: seq<Option<PyError>>)
    requires img.Valid() && |fetches| == |calls|
    modifies img
    ensures img.Valid() && |errs| == |calls|
    ensures var first := FirstSuccess(fetches, img.CreateUrl(fmt));
            |img.fetched| == |old(img.fetched)| + (if old(img.loaded) then 0 else if first < |calls| then first + 1 else |calls|)
    ensures img.fetched[..|old(img.fetched)|] == old(img.fetched)
    ensures forall k :: |old(img.fetched)| <= k < |img.fetched| ==> img.fetched[k] == img.CreateUrl(fmt)
    ensures img.loaded <==> old(img.loaded) || FirstSuccess(fetches, img.CreateUrl(fmt)) < |calls|
    ensures old(img.loaded) ==> img.data == old(img.data)
    ensures var first := FirstSuccess(fetches, img.CreateUrl(fmt));
            !old(img.loaded) && first < |calls| ==> img.data == Some(fetches[first](img.CreateUrl(fmt)).value)
    ensures var first := FirstSuccess(fetches, img.CreateUrl(fmt));
            forall j :: 0 <= j < |calls| && !old(img.loaded) && j < first ==> errs[j] == Some(fetches[j](img.CreateUrl(fmt)).error)
    ensures var first := FirstSuccess(fetches, img.CreateUrl(fmt));
            forall j :: 0 <= j < |calls| && (old(img.loaded) || first <= j) ==> errs[j] == DisplayError(img.data.value, calls[j])
  {
    errs := [];
    var i := 0;
    while i < |calls|
      invariant 0 <= i <= |calls| && |errs| == i
      invariant img.Valid()
      invariant RunSoFar(old(img.loaded), old(img.data), old(img.fetched), img.loaded, img.data, img.fetched,
                         img.CreateUrl(fmt), fetches, calls, errs)
    {
      ghost var loaded, data, log := img.loaded, img.data, img.fetched;
      var err := Display(img, calls[i], fmt, fetches[i]);
      RunStep(old(img.loaded), old(img.data), old(img.fetched), loaded, data, log,
              img.loaded, img.data, img.fetched, img.CreateUrl(fmt), fetches, calls, errs, err);
      errs := errs + [err];
      i := i + 1;
    }
  }



  /** The URL of an image holds the parameters ra, dec, scale, width and
      height in that order, then "opt" exactly when `opt` is non-empty and
      "query" exactly when `query` is non-empty — provided no value holds
      an '&'. */
  lemma CreateUrlKeys(img: Images, fmt: real -> string)
    requires NoAmp(fmt(img.ra)) && NoAmp(fmt(img.dec)) && NoAmp(fmt(img.scale))
    requires NoAmp(img.opt) && NoAmp(img.query)
    ensures var url := img.CreateUrl(fmt);
            Keys(Split(url[|CUTOUT_BASE|..], '&'))
            == ["ra", "dec", "scale", "width", "height"]
               + (if img.opt != "" then ["opt"] else []) + (if img.query != "" then ["query"] else [])
  {
    IntStrNoAmp(img.width);
    IntStrNoAmp(img.height);
    CutoutUrlKeys(fmt(img.ra), fmt(img.dec), fmt(img.scale), IntStr(img.width), IntStr(img.height),
                  img.opt, img.query);
  }

  /** Cut at '&', the URL gives the pairs "name=value" with each field's
      text, in order. */
  lemma CreateUrlParams(img: Images, fmt: real -> string)
    requires NoAmp(fmt(img.ra)) && NoAmp(fmt(img.dec)) && NoAmp(fmt(img.scale))
    requires NoAmp(img.opt) && NoAmp(img.query)
    ensures var url := img.CreateUrl(fmt);
            Split(url[|CUTOUT_BASE|..], '&')
            == ["ra=" + fmt(img.ra), "dec=" + fmt(img.dec), "scale=" + fmt(img.scale),
                "width=" + IntStr(img.width), "height=" + IntStr(img.height)]
               + (if img.opt != "" then ["opt=" + img.opt] else [])
               + (if img.query != "" then ["query=" + img.query] else [])
  {
    IntStrNoAmp(img.width);
    IntStrNoAmp(img.height);
    CutoutUrlParams(fmt(img.ra), fmt(img.dec), fmt(img.scale), IntStr(img.width), IntStr(img.height),
                    img.opt, img.query);
    ParamsListed(fmt(img.ra), fmt(img.dec), fmt(img.scale), IntStr(img.width), IntStr(img.height),
                 img.opt, img.query);
  }

  lemma ParamsListed(ra: string, dec: string, scale: string, width: string, height: string,
                     opt: string, query: string)
    ensures CutoutParams(ra, dec, scale, width, height, opt, query)
            == ["ra=" + ra, "dec=" + dec, "scale=" + scale, "width=" + width, "height=" + height]
               + (if opt != "" then ["opt=" + opt] else []) + (if query != "" then ["query=" + query] else [])
  {
    assert "opt" + "=" == "opt=" && "query" + "=" == "query=";
  }

  /** With the default `opt` and `query`, the request asks for "opt=GS"
      and no query. */
  lemma DefaultOptUrl(ra: string, dec: string, scale: string, width: string, height: string)
    requires NoAmp(ra) && NoAmp(dec) && NoAmp(scale) && NoAmp(width) && NoAmp(height)
    ensures var url := CutoutUrl(ra, dec, scale, width, height, DEFAULT_OPT, DEFAULT_QUERY);
            var ps := Split(url[|CUTOUT_BASE|..], '&');
            |ps| == 6 && ps[5] == "opt=GS"
  {
    OptOnlyUrl(ra, dec, scale, width, height, DEFAULT_OPT);
    assert "opt=" + DEFAULT_OPT == "opt=GS";
  }

  /** A non-empty `opt` and no query: six pairs, the last one "opt=<opt>". */
  lemma OptOnlyUrl(ra: string, dec: string, scale: string, width: string, height: string, opt: string)
    requires NoAmp(ra) && NoAmp(dec) && NoAmp(scale) && NoAmp(width) && NoAmp(height)
    requires NoAmp(opt) && opt != ""
    ensures var url := CutoutUrl(ra, dec, scale, width, height, opt, "");
            var ps := Split(url[|CUTOUT_BASE|..], '&');
            |ps| == 6 && ps[5] == "opt=" + opt
  {
    CutoutUrlParams(ra, dec, scale, width, height, opt, "");
    ParamsListed(ra, dec, scale, width, height, opt, "");
  }

  lemma IntStrNoAmp(n: int)
    ensures NoAmp(IntStr(n))
  {
    var s := IntStr(n);
    if n < 0 {
      assert s == [s[0]] + s[1..];
    }
  }
}
