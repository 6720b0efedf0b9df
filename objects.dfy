/** sdss/objects.py: `PhotoObj` and `SpecObj`, catalogue entries that decode
    their id when built and fill their other fields from the SQL service on
    demand.

    The HTTP GET behind `sql2df` is the parameter `get`, which returns the
    reply text or the error the request raises; the lookup table
    `photo_types` is the parameter `types`; `decode_specid` is the parameter
    `decodeSpecId`; whether `float()` accepts a cell's text is the parameter
    `isFloat`. Cells keep their text. The ghost field `queries` of each class
    records every SQL script the object has sent, in order. */
module Objects {
  import opened PyTypes
  import opened Text
  import opened Numerals
  import opened Utils

  // ---------------------------------------------------------------------
  // The reply as a DataFrame

  /** Every row has one cell per column. */
  predicate Rectangular(t: Table)
  {
    forall k :: 0 <= k < |t.rows| ==> |t.rows[k]| == |t.columns|
  }

  /** A rectangular reply with at least one row: `len(df) > 0`. */
  predicate HasRow(t: Table)
  {
    Rectangular(t) && |t.rows| > 0
  }

  /** `sql2df(script)` up to the DataFrame it returns: `pd.DataFrame`
      refuses rows that do not match the header with ValueError. */
  function SqlFrame(script: string, get: string -> Result<string>): (r: Result<Table>)
    ensures r.Success? ==> Rectangular(r.value) && Sql2df(script, get) == r
    ensures Sql2df(script, get).Failure? ==> r == Sql2df(script, get)
    ensures Sql2df(script, get).Success? && !Rectangular(Sql2df(script, get).value) ==> r == Failure(ValueError)
  {
    match Sql2df(script, get)
    case Failure(e) => Failure(e)
    case Success(t) => if Rectangular(t) then Success(t) else Failure(ValueError)
  }

  /** Position of the first column called `name`, `|cols|` when none is. */
  function ColumnIndex(cols: seq<string>, name: string): (i: nat)
    ensures i <= |cols|
    ensures i < |cols| <==> name in cols
    ensures i < |cols| ==> cols[i] == name
    ensures forall j :: 0 <= j < i ==> cols[j] != name
  {
    if cols == [] then 0 else if cols[0] == name then 0 else 1 + ColumnIndex(cols[1..], name)
  }

  /** `df[name].iloc[0]`: the first row's cell in column `name`. */
  function Cell(t: Table, name: string): string
    requires HasRow(t) && name in t.columns
  {
    t.rows[0][ColumnIndex(t.columns, name)]
  }

  /** Every one of `names` is a column. */
  predicate Has(cols: seq<string>, names: seq<string>)
  {
    forall n :: n in names ==> n in cols
  }

  /** The first of `names` that is not a column; selecting `df[names]`
      raises KeyError for it. */
  function FirstMissing(cols: seq<string>, names: seq<string>): (r: Option<string>)
    ensures r.None? <==> Has(cols, names)
    ensures r.Some? ==> r.value in names && r.value !in cols
  {
    if names == [] then None
    else if names[0] !in cols then Some(names[0])
    else FirstMissing(cols, names[1..])
  }

  /** Every cell of the columns `names`, in every row, is text `float()`
      accepts. */
  predicate AllFloat(t: Table, names: seq<string>, isFloat: string -> bool)
    requires Rectangular(t)
  {
    forall k, n :: 0 <= k < |t.rows| && n in names && n in t.columns ==> isFloat(t.rows[k][ColumnIndex(t.columns, n)])
  }

  /** `df[names] = df[names].astype(float)`: KeyError for a missing column,
      ValueError for a cell that is not a number. */
  function CastFloats(t: Table, names: seq<string>, isFloat: string -> bool): (r: Option<PyError>)
    requires Rectangular(t)
    ensures r.None? <==> Has(t.columns, names) && AllFloat(t, names, isFloat)
    ensures r.Some? && Has(t.columns, names) ==> r == Some(ValueError)
    ensures !Has(t.columns, names) ==>
              r.Some? && r.value.KeyError? && r.value.key in names
              && r.value.key !in t.columns
  {
    match FirstMissing(t.columns, names)
    case Some(c) => Some(KeyError(c))
    case None => if AllFloat(t, names, isFloat) then None else Some(ValueError)
  }

  const BANDS: seq<string> := ["u", "g", "r", "i", "z"]

  /** `{'u': u, 'g': g, 'r': r, 'i': i, 'z': z}` from the first row. */
  function Mag(t: Table): map<string, string>
    requires HasRow(t) && Has(t.columns, BANDS)
  {
    map b | b in BANDS :: Cell(t, b)
  }

  /** The magnitudes are keyed by exactly the five bands, each with the
      first row's cell of its own column. */
  lemma MagCells(t: Table)
    requires HasRow(t) && Has(t.columns, BANDS)
    ensures Mag(t).Keys == {"u", "g", "r", "i", "z"}
    ensures forall b :: b in Mag(t) ==> Mag(t)[b] == Cell(t, b)
  {
    assert forall b :: b in BANDS <==> b in {"u", "g", "r", "i", "z"};
  }

  /** The new state of an entry after `download`, and the exception it
      raised, if any. */
  datatype Outcome<S> = Outcome(state: S, error: Option<PyError>)

  // ---------------------------------------------------------------------
  // PhotoObj

  /** The fields `PhotoObj.download` may change. */
  datatype PhotoState = PhotoState(specObjID: Option<string>, ra: Option<string>, dec: Option<string>,
                                   mag: Option<map<string, string>>, objType: Option<string>,
                                   downloaded: bool)

  /** `ra` and `dec` are set together. */
  predicate Paired(s: PhotoState)
  {
    s.ra.Some? <==> s.dec.Some?
  }

  const PHOTO_FLOAT_COLS: seq<string> := ["ra", "dec"] + BANDS

  /** The number columns of the photometry query, one by one. */
  lemma PhotoColumns(cols: seq<string>)
    requires Has(cols, PHOTO_FLOAT_COLS)
    ensures "ra" in cols && "dec" in cols && Has(cols, BANDS)
  {
    assert PHOTO_FLOAT_COLS[0] == "ra" && PHOTO_FLOAT_COLS[1] == "dec";
  }
  const PHOTO_NOT_FOUND: string := "Photo object not found!"

  function PhotoScript(objID: string): string
  {
    "SELECT specObjID,ra,dec,u,g,r,i,z,type " + "FROM PhotoObj WHERE objID=" + objID
  }

  /** `PhotoObj.download(get_image)` on the reply to its query: nothing
      changes for a failed request; an empty result only sets
      `downloaded`; otherwise the fields come from the first row. */
  function PhotoDownload(s: PhotoState, reply: Result<Table>, getImage: bool, types: map<string, string>,
                         isFloat: string -> bool): (r: Outcome<PhotoState>)
    requires reply.Success? ==> Rectangular(reply.value)
    ensures r.error.None? ==> r.state.downloaded
    ensures r.error.Some? ==> r.state.downloaded == s.downloaded
    ensures reply.Failure? ==> r == Outcome(s, Some(reply.error))
    ensures Paired(s) ==> Paired(r.state)
  {
    match reply
    case Failure(e) => Outcome(s, Some(e))
    case Success(t) =>
      if |t.rows| == 0 then Outcome(s.(downloaded := true), None)
      else PhotoRow(s, t, getImage, types, isFloat)
  }

  /** The branch `len(df) > 0`, in the order the method assigns the
      fields, up to the first exception. */
  function PhotoRow(s: PhotoState, t: Table, getImage: bool, types: map<string, string>,
                    isFloat: string -> bool): (r: Outcome<PhotoState>)
    requires HasRow(t)
    ensures r.error.None? ==> r.state.downloaded
    ensures r.error.Some? ==> r.state.downloaded == s.downloaded
    ensures Paired(s) ==> Paired(r.state)
  {
    match CastFloats(t, PHOTO_FLOAT_COLS, isFloat)
    case Some(e) => Outcome(s, Some(e))
    case None =>
      if "specObjID" !in t.columns then Outcome(s, Some(KeyError("specObjID")))
      else PhotoType(PhotoFields(s, t), t, getImage, types)
  }

  /** `specObjID`, `ra`, `dec` and `mag` from the first row. */
  function PhotoFields(s: PhotoState, t: Table): (r: PhotoState)
    requires HasRow(t) && Has(t.columns, PHOTO_FLOAT_COLS) && "specObjID" in t.columns
    ensures r.ra.Some? && r.dec.Some? && r.objType == s.objType && r.downloaded == s.downloaded
  {
    PhotoColumns(t.columns);
    s.(specObjID := Some(Cell(t, "specObjID")), ra := Some(Cell(t, "ra")), dec := Some(Cell(t, "dec")),
       mag := Some(Mag(t)))
  }

  /** `photo_types[df['type'].iloc[0]]`, then the image: with `get_image`
      the method reads `self.quick_image`, which the class does not
      define. */
  function PhotoType(s: PhotoState, t: Table, getImage: bool, types: map<string, string>): (r: Outcome<PhotoState>)
    requires HasRow(t)
    ensures r.error.None? ==> r.state.downloaded
    ensures r.error.Some? ==> r.state.downloaded == s.downloaded
    ensures r.state.ra == s.ra && r.state.dec == s.dec
  {
    if "type" !in t.columns then Outcome(s, Some(KeyError("type")))
    else if Cell(t, "type") !in types then Outcome(s, Some(KeyError(Cell(t, "type"))))
    else
      var s2 := s.(objType := Some(types[Cell(t, "type")]));
      if getImage then Outcome(s2, Some(AttributeError("quick_image")))
      else Outcome(s2.(downloaded := true), None)
  }

  class PhotoObj {
    const objID: string
    const skyVersion: nat
    const rerun: nat
    const run: nat
    const camcol: nat
    const field: nat
    const idInField: nat
    var specObjID: Option<string>
    var ra: Option<string>
    var dec: Option<string>
    var mag: Option<map<string, string>>
    var objType: Option<string>
    var downloaded: bool
    ghost var queries: seq<string>

    function State(): PhotoState
      reads this
    {
      PhotoState(specObjID, ra, dec, mag, objType, downloaded)
    }

    ghost predicate Valid()
      reads this
    {
      Paired(State())
    }

    /** `PhotoObj(objID)` for an id that decodes. */
    constructor (objID: Arg)
      requires DecodeObjIdArg(objID).Success?
      ensures var dc := DecodeObjIdArg(objID).value;
              && this.objID == ArgText(objID)
              && skyVersion == dc.version && rerun == dc.rerun && run == dc.run
              && camcol == dc.camcol && field == dc.field && idInField == dc.idWithinField
      ensures State() == PhotoState(None, None, None, None, None, false) && queries == []
      ensures Valid()
    {
      this.objID := ArgText(objID);
      var dc := DecodeObjIdArg(objID).value;
      skyVersion := dc.version;
      rerun := dc.rerun;
      run := dc.run;
      camcol := dc.camcol;
      field := dc.field;
      idInField := dc.idWithinField;
      specObjID := None;
      ra := None;
      dec := None;
      mag := None;
      objType := None;
      downloaded := false;
      queries := [];
    }

    /** `download(get_image)`. */
    method Download(getImage: bool := false, get: string -> Result<string>, types: map<string, string>, isFloat: string -> bool)
      returns (err: Option<PyError>)
      requires Valid()
      modifies this
      ensures Valid()
      ensures Outcome(State(), err)
              == PhotoDownload(old(State()), SqlFrame(PhotoScript(objID), get), getImage, types, isFloat)
      ensures queries == old(queries) + [PhotoScript(objID)]
    {
      var script := "SELECT specObjID,ra,dec,u,g,r,i,z,type ";
      script := script + "FROM PhotoObj WHERE objID=" + objID;
      queries := queries + [script];
      var df := SqlFrame(script, get);
      if df.Failure? {
        return Some(df.error);
      }
      var t := df.value;
      if |t.rows| > 0 {
        var cast := CastFloats(t, PHOTO_FLOAT_COLS, isFloat);
        if cast.Some? {
          return cast;
        }
        if "specObjID" !in t.columns {
          return Some(KeyError("specObjID"));
        }
        SetFields(t);
        err := SetType(t, getImage, types);
        return;
      }
      downloaded := true;
      err := None;
    }

    /** The assignments of `specObjID`, `ra`, `dec` and `mag`. */
    method SetFields(t: Table)
      requires HasRow(t) && Has(t.columns, PHOTO_FLOAT_COLS) && "specObjID" in t.columns
      modifies this
      ensures State() == PhotoFields(old(State()), t) && queries == old(queries)
    {
      PhotoColumns(t.columns);
      specObjID := Some(Cell(t, "specObjID"));
      ra := Some(Cell(t, "ra"));
      dec := Some(Cell(t, "dec"));
      mag := Some(Mag(t));
    }

    /** The type lookup and the image. */
    method SetType(t: Table, getImage: bool, types: map<string, string>) returns (err: Option<PyError>)
      requires HasRow(t)
      modifies this
      ensures Outcome(State(), err) == PhotoType(old(State()), t, getImage, types) && queries == old(queries)
    {
      if "type" !in t.columns {
        return Some(KeyError("type"));
      }
      var code := Cell(t, "type");
      if code !in types {
        return Some(KeyError(code));
      }
      objType := Some(types[code]);
      if getImage {
        return Some(AttributeError("quick_image"));
      }
      downloaded := true;
      err := None;
    }

    /** `cutout_image(scale, width, height)`: download first unless done
        before, then fetch the cutout around the object; an object the
        service does not know raises "Photo object not found!". `num` is
        `str(float(cell))`, `fmt` is `str()` of a float, `fetch` opens and
        decodes the image at a URL, or fails with what the request raises. */
    method CutoutImage(scale: real := 0.1, width: int := 300, height: int := 300, fmt: real -> string, num: string -> string,
                       get: string -> Result<string>, types: map<string, string>, isFloat: string -> bool,
                       fetch: string -> Result<Pixels>)
      returns (r: Result<Pixels>)
      requires Valid()
      modifies this
      ensures Valid()
      ensures old(downloaded) ==> State() == old(State()) && queries == old(queries)
      ensures !old(downloaded) ==>
                var o := PhotoDownload(old(State()), SqlFrame(PhotoScript(objID), get), false, types, isFloat);
                && State() == o.state && queries == old(queries) + [PhotoScript(objID)]
                && (o.error.Some? ==> r == Failure(o.error.value))
      ensures downloaded ==> r == (if ra.None? then Failure(Raised(PHOTO_NOT_FOUND))
                                   else fetch(CutoutUrl(num(ra.value), num(dec.value), fmt(scale),
                                                        IntStr(width), IntStr(height), "", "")))
    {
      if !downloaded {
        var err := Download(false, get, types, isFloat);
        if err.Some? {
          return Failure(err.value);
        }
      }
      if ra.None? {
        return Failure(Raised(PHOTO_NOT_FOUND));
      }
      var url := CutoutUrl(num(ra.value), num(dec.value), fmt(scale), IntStr(width), IntStr(height), "", "");
      r := fetch(url);
    }
  }

  /** `PhotoObj(objID)` for any argument: an id that does not decode
      raises what `decode_objid` raises. */
  method NewPhotoObj(objID: Arg) returns (r: Result<PhotoObj>)
    ensures r.Success? <==> DecodeObjIdArg(objID).Success?
    ensures r.Failure? ==> r.error == DecodeObjIdArg(objID).error
    ensures r.Success? ==> fresh(r.value) && r.value.Valid() && r.value.objID == ArgText(objID)
                           && r.value.State() == PhotoState(None, None, None, None, None, false)
  {
    match DecodeObjIdArg(objID)
    case Failure(e) =>
      r := Failure(e);
    case Success(_) =>
      var p := new PhotoObj(objID);
      r := Success(p);
  }

  /** An empty result changes nothing but `downloaded`. */
  lemma PhotoNoRows(s: PhotoState, t: Table, getImage: bool, types: map<string, string>, isFloat: string -> bool)
    requires Rectangular(t) && |t.rows| == 0
    ensures PhotoDownload(s, Success(t), getImage, types, isFloat) == Outcome(s.(downloaded := true), None)
  {
  }

  /** Beyond the cast of the number columns, only the first row matters:
      replies with the same columns and the same first row, whose number
      columns cast alike, give the same fields and the same exception. */
  lemma PhotoFirstRowWins(s: PhotoState, t1: Table, t2: Table, getImage: bool, types: map<string, string>,
                          isFloat: string -> bool)
    requires HasRow(t1) && HasRow(t2) && t1.columns == t2.columns && t1.rows[0] == t2.rows[0]
    requires AllFloat(t1, PHOTO_FLOAT_COLS, isFloat) == AllFloat(t2, PHOTO_FLOAT_COLS, isFloat)
    ensures PhotoDownload(s, Success(t1), getImage, types, isFloat)
            == PhotoDownload(s, Success(t2), getImage, types, isFloat)
  {
    SameFirstRow(t1, t2);
    if Has(t1.columns, PHOTO_FLOAT_COLS) && "specObjID" in t1.columns {
      assert Mag(t1) == Mag(t2);
      assert PhotoFields(s, t1) == PhotoFields(s, t2);
    }
  }

  lemma SameFirstRow(t1: Table, t2: Table)
    requires HasRow(t1) && HasRow(t2) && t1.columns == t2.columns && t1.rows[0] == t2.rows[0]
    ensures forall n :: n in t1.columns ==> Cell(t1, n) == Cell(t2, n)
  {
  }

  /** A download without exception from a non-empty reply sets every field
      from the first row; `mag` has exactly the five bands. */
  lemma PhotoFound(s: PhotoState, t: Table, getImage: bool, types: map<string, string>, isFloat: string -> bool)
    requires HasRow(t)
    requires PhotoDownload(s, Success(t), getImage, types, isFloat).error.None?
    ensures !getImage
    ensures Has(t.columns, PHOTO_FLOAT_COLS) && AllFloat(t, PHOTO_FLOAT_COLS, isFloat)
    ensures "ra" in t.columns && "dec" in t.columns && Has(t.columns, BANDS)
    ensures "specObjID" in t.columns && "type" in t.columns
    ensures var r := PhotoDownload(s, Success(t), getImage, types, isFloat).state;
            && r.specObjID == Some(Cell(t, "specObjID")) && r.ra == Some(Cell(t, "ra"))
            && r.dec == Some(Cell(t, "dec")) && r.downloaded
            && Cell(t, "type") in types && r.objType == Some(types[Cell(t, "type")])
            && r.mag == Some(Mag(t))
  {
    PhotoColumns(t.columns);
  }

  /** `ra` only ever changes to the first row's "ra" cell. */
  lemma PhotoRaFromRow(s: PhotoState, reply: Result<Table>, getImage: bool, types: map<string, string>,
                       isFloat: string -> bool)
    requires reply.Success? ==> Rectangular(reply.value)
    ensures var r := PhotoDownload(s, reply, getImage, types, isFloat).state;
            r.ra != s.ra ==> reply.Success? && HasRow(reply.value) && "ra" in reply.value.columns
                             && r.ra == Some(Cell(reply.value, "ra"))
  {
  }

  // ---------------------------------------------------------------------
  // SpecObj

  /** What `decode_specid` returns. */
  datatype SpecId = SpecId(plate: int, fiberId: int, mjd: int, run2d: Arg)

  /** The fields `SpecObj.download` may change. */
  datatype SpecState = SpecState(bestObjID: Option<string>, ra: Option<string>, dec: Option<string>,
                                 mag: Option<map<string, string>>, objType: Option<string>,
                                 z: Option<string>, zErr: Option<string>, zWarning: Option<string>,
                                 mainClass: Option<string>, subClass: Option<string>, img: Option<string>,
                                 downloaded: bool)

  const SPEC_FLOAT_COLS: seq<string> := ["ra", "dec"] + BANDS + ["redshift", "zErr"]

  /** The number columns of the spectrum query, one by one. */
  lemma SpecColumns(cols: seq<string>)
    requires Has(cols, SPEC_FLOAT_COLS)
    ensures "ra" in cols && "dec" in cols && Has(cols, BANDS) && "redshift" in cols && "zErr" in cols
  {
    assert SPEC_FLOAT_COLS[0] == "ra" && SPEC_FLOAT_COLS[1] == "dec";
    assert SPEC_FLOAT_COLS[7] == "redshift" && SPEC_FLOAT_COLS[8] == "zErr";
  }

  const SPEC_SELECT: string :=
    "SELECT s.bestObjID, s.ra, s.dec, p.u, p.g, p.r, p.i, p.z, p.type,\n"
    + "        s.z AS redshift, s.zErr, s.zWarning, s.class, s.subClass, s.img\n"
    + "        FROM SpecObj AS s\n"
    + "        JOIN PhotoObj AS p ON s.bestObjID=p.objID\n"
    + "        WHERE s.specObjID="

  function SpecScript(specObjID: string): string
  {
    SPEC_SELECT + specObjID
  }

  const SPEC_NONE: SpecState := SpecState(None, None, None, None, None, None, None, None, None, None, None, false)

  /** `SpecObj.download()` on the reply to its query. */
  function SpecDownload(s: SpecState, reply: Result<Table>, types: map<string, string>, isFloat: string -> bool)
    : (r: Outcome<SpecState>)
    requires reply.Success? ==> Rectangular(reply.value)
    ensures r.error.None? ==> r.state.downloaded
    ensures r.error.Some? ==> r.state.downloaded == s.downloaded
    ensures reply.Failure? ==> r == Outcome(s, Some(reply.error))
  {
    match reply
    case Failure(e) => Outcome(s, Some(e))
    case Success(t) =>
      if |t.rows| == 0 then Outcome(s.(downloaded := true), None)
      else SpecRow(s, t, types, isFloat)
  }

  /** The branch `len(df) > 0`, in the order the method assigns the
      fields, up to the first exception. */
  function SpecRow(s: SpecState, t: Table, types: map<string, string>, isFloat: string -> bool)
    : (r: Outcome<SpecState>)
    requires HasRow(t)
    ensures r.error.None? ==> r.state.downloaded
    ensures r.error.Some? ==> r.state.downloaded == s.downloaded
  {
    match CastFloats(t, SPEC_FLOAT_COLS, isFloat)
    case Some(e) => Outcome(s, Some(e))
    case None =>
      if "bestObjID" !in t.columns then Outcome(s, Some(KeyError("bestObjID")))
      else SpecType(SpecFields(s, t), t, types)
  }

  /** `bestObjID`, `ra`, `dec` and `mag` from the first row. */
  function SpecFields(s: SpecState, t: Table): (r: SpecState)
    requires HasRow(t) && Has(t.columns, SPEC_FLOAT_COLS) && "bestObjID" in t.columns
    ensures r.downloaded == s.downloaded
  {
    SpecColumns(t.columns);
    s.(bestObjID := Some(Cell(t, "bestObjID")), ra := Some(Cell(t, "ra")), dec := Some(Cell(t, "dec")),
       mag := Some(Mag(t)))
  }

  /** `photo_types[df['type'].iloc[0]]`, then the redshift and its error. */
  function SpecType(s: SpecState, t: Table, types: map<string, string>): (r: Outcome<SpecState>)
    requires HasRow(t) && Has(t.columns, SPEC_FLOAT_COLS)
    ensures r.error.None? ==> r.state.downloaded
    ensures r.error.Some? ==> r.state.downloaded == s.downloaded
  {
    if "type" !in t.columns then Outcome(s, Some(KeyError("type")))
    else if Cell(t, "type") !in types then Outcome(s, Some(KeyError(Cell(t, "type"))))
    else
      SpecColumns(t.columns);
      SpecTail(s.(objType := Some(types[Cell(t, "type")]), z := Some(Cell(t, "redshift")),
                     zErr := Some(Cell(t, "zErr"))), t)
  }

  /** `zWarning`, `mainClass`, `subClass` and `img`, each from its column. */
  function SpecTail(s: SpecState, t: Table): (r: Outcome<SpecState>)
    requires HasRow(t)
    ensures r.error.None? ==> r.state.downloaded
    ensures r.error.Some? ==> r.state.downloaded == s.downloaded
  {
    if "zWarning" !in t.columns then Outcome(s, Some(KeyError("zWarning")))
    else
      var s3 := s.(zWarning := Some(Cell(t, "zWarning")));
      if "class" !in t.columns then Outcome(s3, Some(KeyError("class")))
      else SpecClass(s3.(mainClass := Some(Cell(t, "class"))), t)
  }

  /** `subClass` and `img`. */
  function SpecClass(s: SpecState, t: Table): (r: Outcome<SpecState>)
    requires HasRow(t)
    ensures r.error.None? ==> r.state.downloaded
    ensures r.error.Some? ==> r.state.downloaded == s.downloaded
  {
    if "subClass" !in t.columns then Outcome(s, Some(KeyError("subClass")))
    else
      var s5 := s.(subClass := Some(Cell(t, "subClass")));
      if "img" !in t.columns then Outcome(s5, Some(KeyError("img")))
      else Outcome(s5.(img := Some(Cell(t, "img")), downloaded := true), None)
  }

  const SPEC_BASE: string := "https://dr16.sdss.org/sas/dr16/sdss/spectro/redux/"

  class SpecObj {
    const specObjID: string
    const plate: int
    const fiberID: int
    const mjd: int
    const run2d: Arg
    /** `run`, `camcol` and `field` are None from construction on: no
        method of the class assigns them. */
    const run: Option<string>
    const camcol: Option<string>
    const field: Option<string>
    var bestObjID: Option<string>
    var ra: Option<string>
    var dec: Option<string>
    var z: Option<string>
    var zErr: Option<string>
    var zWarning: Option<string>
    var mainClass: Option<string>
    var subClass: Option<string>
    var img: Option<string>
    var downloaded: bool
    var mag: Option<map<string, string>>
    var objType: Option<string>
    ghost var queries: seq<string>

    function State(): SpecState
      reads this
    {
      SpecState(bestObjID, ra, dec, mag, objType, z, zErr, zWarning, mainClass, subClass, img, downloaded)
    }

    /** `SpecObj(specObjID)`. */
    constructor (specObjID: Arg, decodeSpecId: Arg -> SpecId)
      ensures this.specObjID == ArgText(specObjID)
      ensures SpecId(plate, fiberID, mjd, run2d) == decodeSpecId(specObjID)
      ensures State() == SPEC_NONE && queries == []
      ensures run.None? && camcol.None? && field.None?
    {
      this.specObjID := ArgText(specObjID);
      var dc := decodeSpecId(specObjID);
      plate := dc.plate;
      fiberID := dc.fiberId;
      mjd := dc.mjd;
      run2d := dc.run2d;
      bestObjID := None;
      ra := None;
      dec := None;
      z := None;
      zErr := None;
      zWarning := None;
      mainClass := None;
      subClass := None;
      img := None;
      downloaded := false;
      mag := None;
      objType := None;
      this.run := None;
      this.camcol := None;
      this.field := None;
      queries := [];
    }

    /** `download()`. It never assigns `run`, `camcol` or `field`. */
    method Download(get: string -> Result<string>, types: map<string, string>, isFloat: string -> bool)
      returns (err: Option<PyError>)
      modifies this
      ensures Outcome(State(), err) == SpecDownload(old(State()), SqlFrame(SpecScript(specObjID), get), types, isFloat)
      ensures queries == old(queries) + [SpecScript(specObjID)]
    {
      var script := SPEC_SELECT + specObjID;
      queries := queries + [script];
      var df := SqlFrame(script, get);
      if df.Failure? {
        return Some(df.error);
      }
      var t := df.value;
      if |t.rows| > 0 {
        var cast := CastFloats(t, SPEC_FLOAT_COLS, isFloat);
        if cast.Some? {
          return cast;
        }
        if "bestObjID" !in t.columns {
          return Some(KeyError("bestObjID"));
        }
        SetFields(t);
        err := SetType(t, types);
        return;
      }
      downloaded := true;
      err := None;
    }

    /** The assignments of `bestObjID`, `ra`, `dec` and `mag`. */
    method SetFields(t: Table)
      requires HasRow(t) && Has(t.columns, SPEC_FLOAT_COLS) && "bestObjID" in t.columns
      modifies this
      ensures State() == SpecFields(old(State()), t) && queries == old(queries)
    {
      SpecColumns(t.columns);
      bestObjID := Some(Cell(t, "bestObjID"));
      ra := Some(Cell(t, "ra"));
      dec := Some(Cell(t, "dec"));
      mag := Some(Mag(t));
    }

    /** The type lookup, the redshift and its error. */
    method SetType(t: Table, types: map<string, string>) returns (err: Option<PyError>)
      requires HasRow(t) && Has(t.columns, SPEC_FLOAT_COLS)
      modifies this
      ensures Outcome(State(), err) == SpecType(old(State()), t, types) && queries == old(queries)
    {
      if "type" !in t.columns {
        return Some(KeyError("type"));
      }
      if Cell(t, "type") !in types {
        return Some(KeyError(Cell(t, "type")));
      }
      SpecColumns(t.columns);
      var code := Cell(t, "type");
      objType := Some(types[code]);
      z := Some(Cell(t, "redshift"));
      zErr := Some(Cell(t, "zErr"));
      assert State() == old(State()).(objType := Some(types[code]), z := Some(Cell(t, "redshift")),
                                      zErr := Some(Cell(t, "zErr")));
      err := SetTail(t);
    }

    /** `zWarning` and `mainClass`. */
    method SetTail(t: Table) returns (err: Option<PyError>)
      requires HasRow(t)
      modifies this
      ensures Outcome(State(), err) == SpecTail(old(State()), t) && queries == old(queries)
    {
      if "zWarning" !in t.columns {
        return Some(KeyError("zWarning"));
      }
      zWarning := Some(Cell(t, "zWarning"));
      if "class" !in t.columns {
        return Some(KeyError("class"));
      }
      mainClass := Some(Cell(t, "class"));
      err := SetClass(t);
    }

    /** `subClass` and `img`. */
    method SetClass(t: Table) returns (err: Option<PyError>)
      requires HasRow(t)
      modifies this
      ensures Outcome(State(), err) == SpecClass(old(State()), t) && queries == old(queries)
    {
      if "subClass" !in t.columns {
        return Some(KeyError("subClass"));
      }
      subClass := Some(Cell(t, "subClass"));
      if "img" !in t.columns {
        return Some(KeyError("img"));
      }
      img := Some(Cell(t, "img"));
      downloaded := true;
      err := None;
    }

    /** `show_spec()` up to the image it plots: download unless done
        before, then decode `img` with `binimg2array`, which fails with
        TypeError while `img` is still None. `openImage` opens the decoded
        bytes as an image; the plot is not modelled. */
    method ShowSpec(get: string -> Result<string>, types: map<string, string>, isFloat: string -> bool,
                    openImage: seq<nat> -> Result<Pixels>)
      returns (r: Result<Pixels>)
      modifies this
      ensures old(downloaded) ==> State() == old(State()) && queries == old(queries)
      ensures !old(downloaded) ==>
                var o := SpecDownload(old(State()), SqlFrame(SpecScript(specObjID), get), types, isFloat);
                && State() == o.state && queries == old(queries) + [SpecScript(specObjID)]
                && (o.error.Some? ==> r == Failure(o.error.value))
      ensures r.Success? <==> downloaded && img.Some? && BinImg2Array(img.value, openImage).Success?
      ensures downloaded && img.None? ==> r == Failure(TypeError)
      ensures downloaded && img.Some? ==> r == BinImg2Array(img.value, openImage)
    {
      if !downloaded {
        var err := Download(get, types, isFloat);
        if err.Some? {
          return Failure(err.value);
        }
      }
      if img.None? {
        return Failure(TypeError);
      }
      r := BinImg2Array(img.value, openImage);
    }

    /** The file name `download_spec` saves under. */
    function SpecFilename(): string
      reads this
    {
      SpecName(plate, mjd, fiberID)
    }

    /** `download_spec(path, lite)`: the URL fetched and the local file
        written. */
    function DownloadSpec(path: string := "", lite: bool := true): (string, string)
      reads this
    {
      (SpecUrl(ArgText(run2d), plate, mjd, fiberID, lite), path + SpecFilename())
    }
  }

  /** "spec-{plate:04}-{mjd:05}-{fiber:04}.fits". */
  function SpecName(plate: int, mjd: int, fiber: int): string
  {
    "spec-" + ZFill(IntStr(plate), 4) + "-" + ZFill(IntStr(mjd), 5) + "-" + ZFill(IntStr(fiber), 4) + ".fits"
  }

  /** Where the file is on the server: under "spectra/lite/" for the light
      version, under "spectra/" otherwise. */
  function SpecUrl(run2d: string, plate: int, mjd: int, fiber: int, lite: bool): string
  {
    var plate4 := ZFill(IntStr(plate), 4);
    var par := if lite then run2d + "/spectra/lite/" + plate4 + "/" else run2d + "/spectra/" + plate4 + "/";
    SPEC_BASE + par + SpecName(plate, mjd, fiber)
  }

  /** An empty result changes nothing but `downloaded`. */
  lemma SpecNoRows(s: SpecState, t: Table, types: map<string, string>, isFloat: string -> bool)
    requires Rectangular(t) && |t.rows| == 0
    ensures SpecDownload(s, Success(t), types, isFloat) == Outcome(s.(downloaded := true), None)
  {
  }

  /** Beyond the cast of the number columns, only the first row matters. */
  lemma SpecFirstRowWins(s: SpecState, t1: Table, t2: Table, types: map<string, string>, isFloat: string -> bool)
    requires HasRow(t1) && HasRow(t2) && t1.columns == t2.columns && t1.rows[0] == t2.rows[0]
    requires AllFloat(t1, SPEC_FLOAT_COLS, isFloat) == AllFloat(t2, SPEC_FLOAT_COLS, isFloat)
    ensures SpecDownload(s, Success(t1), types, isFloat) == SpecDownload(s, Success(t2), types, isFloat)
  {
    SameFirstRow(t1, t2);
    if Has(t1.columns, SPEC_FLOAT_COLS) && "bestObjID" in t1.columns {
      assert Mag(t1) == Mag(t2);
      var s1 := SpecFields(s, t1);
      assert s1 == SpecFields(s, t2);
      SpecTypeFirstRow(s1, t1, t2, types);
    }
  }

  lemma SpecTypeFirstRow(s: SpecState, t1: Table, t2: Table, types: map<string, string>)
    requires HasRow(t1) && HasRow(t2) && t1.columns == t2.columns
    requires Has(t1.columns, SPEC_FLOAT_COLS)
    requires forall n :: n in t1.columns ==> Cell(t1, n) == Cell(t2, n)
    ensures SpecType(s, t1, types) == SpecType(s, t2, types)
  {
    if "type" in t1.columns && Cell(t1, "type") in types {
      var s2 := s.(objType := Some(types[Cell(t1, "type")]), z := Some(Cell(t1, "redshift")),
                   zErr := Some(Cell(t1, "zErr")));
      if "zWarning" in t1.columns && "class" in t1.columns {
        var s4 := s2.(zWarning := Some(Cell(t1, "zWarning"))).(mainClass := Some(Cell(t1, "class")));
        assert SpecClass(s4, t1) == SpecClass(s4, t2);
      }
    }
  }

  /** A download without exception from a non-empty reply sets every field
      from the first row, the redshift from column "redshift". */
  lemma SpecFound(s: SpecState, t: Table, types: map<string, string>, isFloat: string -> bool)
    requires HasRow(t)
    requires SpecDownload(s, Success(t), types, isFloat).error.None?
    ensures Has(t.columns, SPEC_FLOAT_COLS) && AllFloat(t, SPEC_FLOAT_COLS, isFloat)
    ensures "ra" in t.columns && "dec" in t.columns && Has(t.columns, BANDS)
    ensures "redshift" in t.columns && "zErr" in t.columns
    ensures "bestObjID" in t.columns && "type" in t.columns && "zWarning" in t.columns
    ensures "class" in t.columns && "subClass" in t.columns && "img" in t.columns
    ensures var r := SpecDownload(s, Success(t), types, isFloat).state;
            && r.bestObjID == Some(Cell(t, "bestObjID")) && r.ra == Some(Cell(t, "ra"))
            && r.dec == Some(Cell(t, "dec")) && r.mag == Some(Mag(t))
            && Cell(t, "type") in types && r.objType == Some(types[Cell(t, "type")])
            && r.z == Some(Cell(t, "redshift")) && r.zErr == Some(Cell(t, "zErr"))
            && r.zWarning == Some(Cell(t, "zWarning")) && r.mainClass == Some(Cell(t, "class"))
            && r.subClass == Some(Cell(t, "subClass")) && r.img == Some(Cell(t, "img")) && r.downloaded
  {
    SpecColumns(t.columns);
  }

  // ---------------------------------------------------------------------
  // The spectrum file

  /** The spectrum's file name holds plate, MJD and fiber, zero-padded to
      4, 5 and 4 digits, each reading back as the number. */
  lemma SpecFilenameFields(spec: SpecObj)
    requires spec.plate >= 0 && spec.mjd >= 0 && spec.fiberID >= 0
    ensures var f := spec.SpecFilename();
            var parts := Split(f[..|f| - 5], '-');
            && f[|f| - 5..] == ".fits"
            && |parts| == 4 && parts[0] == "spec"
            && ParseInt(parts[1]) == Some(spec.plate) && |parts[1]| >= 4
            && ParseInt(parts[2]) == Some(spec.mjd) && |parts[2]| >= 5
            && ParseInt(parts[3]) == Some(spec.fiberID) && |parts[3]| >= 4
  {
    SpecNumbers(spec.plate, spec.mjd, spec.fiberID);
  }

  lemma SpecNumbers(plate: nat, mjd: nat, fiber: nat)
    ensures var f := SpecName(plate, mjd, fiber);
            var parts := Split(f[..|f| - 5], '-');
            && f[|f| - 5..] == ".fits"
            && |parts| == 4 && parts[0] == "spec"
            && ParseInt(parts[1]) == Some(plate) && |parts[1]| >= 4
            && ParseInt(parts[2]) == Some(mjd) && |parts[2]| >= 5
            && ParseInt(parts[3]) == Some(fiber) && |parts[3]| >= 4
  {
    var plate4, mjd5, fiber4 := ZFill(IntStr(plate), 4), ZFill(IntStr(mjd), 5), ZFill(IntStr(fiber), 4);
    PaddedDigits(plate, 4);
    PaddedDigits(mjd, 5);
    PaddedDigits(fiber, 4);
    SpecNameParts(plate4, mjd5, fiber4);
  }

  /** `str(n).zfill(w)` of a natural number is digits only, at least `w`
      long, and reads back as `n`. */
  lemma PaddedDigits(n: nat, w: nat)
    ensures var s := ZFill(IntStr(n), w);
            AllDigits(s) && '-' !in s && '/' !in s && |s| >= w && ParseInt(s) == Some(n)
  {
    var s := ZFill(IntStr(n), w);
    ZFillUnsigned(IntStr(n), w);
    ParseIntPadded(n, w);
    DigitsLackDash(s);
  }

  lemma SpecNameParts(plate4: string, mjd5: string, fiber4: string)
    requires '-' !in plate4 && '-' !in mjd5 && '-' !in fiber4
    ensures var f := "spec-" + plate4 + "-" + mjd5 + "-" + fiber4 + ".fits";
            && f[|f| - 5..] == ".fits"
            && Split(f[..|f| - 5], '-') == ["spec", plate4, mjd5, fiber4]
  {
    var f := "spec-" + plate4 + "-" + mjd5 + "-" + fiber4 + ".fits";
    var body := "spec" + "-" + plate4 + "-" + mjd5 + "-" + fiber4;
    assert f == body + ".fits";
    assert f[..|f| - 5] == body;
    assert Join(["spec", plate4, mjd5, fiber4], "-") == body by {
      JoinFour("spec", plate4, mjd5, fiber4, "-");
    }
    SplitJoin(["spec", plate4, mjd5, fiber4], '-');
  }

  lemma JoinFour(a: string, b: string, c: string, d: string, sep: string)
    ensures Join([a, b, c, d], sep) == a + sep + b + sep + c + sep + d
  {
    JoinCons(c, [d], sep);
    assert [b, c, d] == [b] + [c, d];
    JoinCons(b, [c, d], sep);
    assert [a, b, c, d] == [a] + [b, c, d];
    JoinCons(a, [b, c, d], sep);
  }

  lemma DigitsLackDash(s: string)
    requires AllDigits(s)
    ensures '-' !in s && '/' !in s
  {
  }

  /** The file is saved under the last segment of the URL it comes from,
      in `path`; the light and the full version differ only by "lite/" in
      the URL, and are saved under the same name. */
  lemma DownloadSpecNames(spec: SpecObj, path: string)
    requires spec.plate >= 0 && spec.mjd >= 0 && spec.fiberID >= 0
    ensures var f := spec.SpecFilename();
            && Last(Split(spec.DownloadSpec(path, true).0, '/')) == f
            && Last(Split(spec.DownloadSpec(path, false).0, '/')) == f
            && spec.DownloadSpec(path, true).1 == spec.DownloadSpec(path, false).1 == path + f
    ensures var pre := SPEC_BASE + (ArgText(spec.run2d) + "/spectra/");
            var rest := ZFill(IntStr(spec.plate), 4) + "/" + spec.SpecFilename();
            && spec.DownloadSpec(path, true).0 == pre + ("lite/" + rest)
            && spec.DownloadSpec(path, false).0 == pre + rest
  {
    SpecUrlNames(ArgText(spec.run2d), spec.plate, spec.mjd, spec.fiberID);
  }

  lemma SpecUrlNames(run2d: string, plate: nat, mjd: nat, fiber: nat)
    ensures var f := SpecName(plate, mjd, fiber);
            && Last(Split(SpecUrl(run2d, plate, mjd, fiber, true), '/')) == f
            && Last(Split(SpecUrl(run2d, plate, mjd, fiber, false), '/')) == f
    ensures var pre := SPEC_BASE + (run2d + "/spectra/");
            var rest := ZFill(IntStr(plate), 4) + "/" + SpecName(plate, mjd, fiber);
            && SpecUrl(run2d, plate, mjd, fiber, true) == pre + ("lite/" + rest)
            && SpecUrl(run2d, plate, mjd, fiber, false) == pre + rest
  {
    var f := SpecName(plate, mjd, fiber);
    var plate4 := ZFill(IntStr(plate), 4);
    assert '/' !in f by {
      PaddedDigits(plate, 4);
      PaddedDigits(mjd, 5);
      PaddedDigits(fiber, 4);
      NameNoSlash(plate4, ZFill(IntStr(mjd), 5), ZFill(IntStr(fiber), 4));
    }
    SpecUrlLast(SPEC_BASE, run2d, "/spectra/lite/", plate4, f);
    SpecUrlLast(SPEC_BASE, run2d, "/spectra/", plate4, f);
    SpecUrlLite(SPEC_BASE, run2d, plate4, f);
  }

  lemma NameNoSlash(plate4: string, mjd5: string, fiber4: string)
    requires '/' !in plate4 && '/' !in mjd5 && '/' !in fiber4
    ensures '/' !in "spec-" + plate4 + "-" + mjd5 + "-" + fiber4 + ".fits"
  {
  }

  /** Whatever the directories, the last segment is the file name. */
  lemma SpecUrlLast(base: string, run2d: string, mid: string, plate4: string, f: string)
    requires '/' !in f
    ensures Last(Split(base + (run2d + mid + plate4 + "/") + f, '/')) == f
  {
    var pre := base + run2d + mid + plate4;
    assert base + (run2d + mid + plate4 + "/") + f == pre + ['/'] + f;
    SplitLast(pre, f, '/');
  }

  /** The light version's URL is the full version's with "lite/" inserted. */
  lemma SpecUrlLite(base: string, run2d: string, plate4: string, f: string)
    ensures base + (run2d + "/spectra/lite/" + plate4 + "/") + f
            == base + (run2d + "/spectra/") + ("lite/" + (plate4 + "/" + f))
    ensures base + (run2d + "/spectra/" + plate4 + "/") + f == base + (run2d + "/spectra/") + (plate4 + "/" + f)
  {
    assert "/spectra/lite/" == "/spectra/" + "lite/";
  }

  function Last<T>(s: seq<T>): T
    requires |s| > 0
  {
    s[|s| - 1]
  }

  /** The last piece of a split is what follows the last separator. */
  lemma {:induction false} SplitLast(a: string, b: string, c: char)
    requires c !in b
    ensures Last(Split(a + [c] + b, c)) == b
    decreases |a|
  {
    var s := a + [c] + b;
    var i := IndexOf(s, c);
    assert s[|a|] == c;
    if i == |a| {
      assert s[i + 1..] == b;
      assert Split(b, c) == [b];
    } else {
      assert s[i + 1..] == a[i + 1..] + [c] + b;
      SplitLast(a[i + 1..], b, c);
    }
  }
}
