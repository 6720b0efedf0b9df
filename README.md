# sdss — a Dafny model of the SDSS client's identifiers, URLs and lazy objects

The `sdss` package is a small Python client for the Sloan Digital Sky
Survey. This project models its core in Dafny and proves what that core
promises:

- **Object IDs.** `decode_objid` turns a 64-bit object ID, or its decimal
  text, into seven fields. Each field is a fixed slice of the ID's binary
  text, zero-padded to 64 characters.
- **URLs, file names and SQL text.** Several functions build these from
  the ID's fields:
  - the image-cutout URL (`img_cutout`, `Images.create_url`);
  - the frame file names and URLs (`frame_filename`, `frame_url`,
    `obj_frame_url`, `frames_url`, `download_frame`);
  - the spectrum file name and URL (`SpecObj.download_spec`);
  - the paths the photometry2 script derives;
  - the query text of `sql2df` and the two `Region` searches.
- **Lazy objects.** `Images`, `Region`, `PhotoObj` and `SpecObj` fetch their
  data on first use and keep it.

The Python builtins this code relies on are written out in the modules
`Text` and `Numerals`, with the Python semantics the code sees:

- `str.zfill` keeps a leading sign in front of the zeros;
- `str.split` and `str.join`;
- `str.strip` and `str.splitlines`;
- `str.replace`, which scans left to right and does not overlap matches;
- `str(int)` and `int(str)`, where `int` accepts surrounding white space, a
  sign and `_` between ASCII digits;
- `bin`, and `int(s, 2)` on the characters `bin(n)[2:].zfill(64)` can hold.

Everything the code hands to the outside world is a parameter:

- `fmt` is Python's `str()` of a float, used for ra, dec, scale and radius;
- `fetch` is the HTTP GET plus JPEG decoding of an image, from URL to the
  pixels or to the error the request raises;
- `get` is the HTTP GET behind `sql2df`, from URL to the reply text or to
  the error the request raises;
- `isFloat` says whether `float()` accepts a cell's text;
- `types` is the `photo_types` table;
- `decodeSpecId` is `decode_specid`;
- `num` is `str(float(cell))`;
- `openImage` is PIL's `Image.open` followed by `np.array`, from bytes to
  the pixels or to the error it raises.

Default arguments are the code's own, written as Dafny default parameter
values: for example `show(band='all')`, `download_frame(fr_type='jpg')`,
`cutout_image(scale=0.1)` and `nearest_objects(n_max=1000)`.

Ghost fields record, in order, every URL an image object fetched
(`fetched`) and every SQL script an entity object sent (`queries`). The
contracts use them to say when a request is made: an image is requested
only while none is loaded, so after a request that raised the next display
requests again, and after one that succeeded no display requests again.

Exceptions are values of `PyTypes.PyError`: ValueError, TypeError,
IndexError, KeyError, AttributeError, and `Raised(msg)` for a bare
`Exception(msg)`. An operation that can raise returns a `Result` or an
`Outcome`. The model raises where the code raises, and adds no checks of
its own. A decoded image (`PyTypes.Pixels`) carries numpy's shape, so the
display methods raise IndexError exactly when `data[:,:,k]` names a
channel the array does not have (a grayscale JPEG decodes to a 2-D
array). A failed image request or SQL request is the failure `fetch` or
`get` returns; the model passes it on and keeps the state the code keeps.
The file transfers of `download_frame` and `download_spec` are not
modelled, so neither are their failures.

Modules, one per source file, plus the shared ones:

- `PyTypes`: the shared value types;
- `Text` and `Numerals`: the Python builtins;
- `Utils`: `sdss/utils.py`;
- `Photometry`: `sdss/photometry.py`;
- `Photometry2`: `sdss/photometry2.py`;
- `Core`: `sdss/core.py`;
- `Objects`: `sdss/objects.py`;
- `Regions`: `sdss/regions.py`.

The model follows the code as written. In particular:

- `decode_objid` does not reject negative or oversized IDs, and does not
  check that the fields re-encode to the ID. A negative int gives the text
  `b` plus the digits of its magnitude from `bin(n)[2:]`. There are three
  cases:
  - From -2^62 down, that text is at least 64 characters long. `zfill`
    leaves it alone, the `b` is the first character, which is never read,
    and the decode succeeds (`Utils.DecodeVeryNegative`).
  - Above -2^62, `zfill` puts zeros in front, so the `b` falls inside a
    field slice. Then `int(…, 2)` fails on that slice with ValueError.
  - The exception is a `b` that follows a `0` at the start of its slice
    with a digit after it. `int(…, 2)` reads that as a `0b` prefix.
- No code cross-checks a spectrum's best object ID against an object ID.
  The model has no such check.
- `zfill` is Python's, not a plain left pad: a leading `-` stays in front.
  This only matters for negative numbers.
- `frames_url` concatenates `run` to text directly, so an int run raises
  TypeError. The model returns that error.

## Model

| member | source | states |
|---|---|---|
| Utils.DecodeReadsFields | sdss/utils.py:8-20 | for 0 <= id < 2^64 the padded binary text is exactly 64 binary digits whose value is the id, and decoding succeeds with each field the value of its fixed slice |
| Utils.DecodeRecombines | sdss/utils.py:11-19 | for 0 <= id < 2^64 every field fits its width (version < 16, rerun < 2^11, run < 2^16, camcol < 8, first_field < 2, field < 2^12, id_within_field < 2^16) and packing the fields back gives id mod 2^63 |
| Utils.DecodeIgnoresTopBit | sdss/utils.py:13 | bit 63 is never read: an id below 2^63 and the same id with bit 63 set decode to identical fields |
| Utils.DecodeEncode | sdss/utils.py:11-19 | decoding the packed value of in-range fields gives those fields back (the inverse direction of DecodeRecombines) |
| Utils.EncodeInjective | sdss/utils.py:11-19 | in-range fields are determined by their packed value, so distinct field tuples never decode from the same id |
| Utils.DecodeText | sdss/utils.py:9-10 | a str argument is converted with int() first: decoding str(n) equals decoding n, for every int n |
| Utils.DecodeNonNegative | sdss/utils.py:11-19 | every non-negative int decodes without error, however large (zfill does not truncate) |
| Utils.DecodeVeryNegative | sdss/utils.py:11-19 | an int at or below -2^62 also decodes without error: the padded text starts with the 'b' of bin, which no field slice reads |
| Utils.ObjIdBitsBinary | sdss/utils.py:11 | bin(n)[2:].zfill(64) of a non-negative id holds only binary digits, and below 2^64 it is exactly 64 of them, with value n |
| Numerals.ParseBin | sdss/utils.py:13-19 | int(s, 2) on the characters bin can produce succeeds on any non-empty run of binary digits, and its value is below 2^len(s) |
| Numerals.BinValSplit | sdss/utils.py:13-19 | the value of a prefix of binary digits is the shorter prefix shifted left past the digits in between, plus their value; this is what lets the fields recombine |
| Numerals.BinUnique | sdss/utils.py:11 | two binary texts of the same length and value are equal, so the 64-character text of an id is unique |
| Numerals.ParseIntStr | sdss/utils.py:9-10 | int(str(n)) == n for every int |
| Numerals.ParseIntPadded | sdss/photometry.py:124-125 | int(str(n).zfill(w)) == n for every int and width: zero-padding never changes the number read back |
| Text.ZFillUnsigned | sdss/photometry.py:124-125 | zfill of an unsigned text is zeros followed by the text itself, of length max(len, width), and digits stay digits |
| Text.ZFillSigned | sdss/photometry.py:124-125 | zfill of a signed text keeps the sign first and puts the zeros right after it |
| Text.SplitJoin | sdss/utils.py:28-29 | splitting a join on the same separator gives the parts back when no part holds the separator |
| Text.JoinSplit | sdss/utils.py:24 | ' '.join(s.split('\n')) replaces every newline by a space and changes nothing else |
| Text.SplitLinesOfLines | sdss/utils.py:27 | splitlines gives back exactly the lines that were written, in order |
| Text.EscapeSpacesRoundTrip | sdss/utils.py:25 | writing each space as "%20" and unescaping "%20" gives the text back when it held no '%' |
| Utils.EncodeSqlOneLine | sdss/utils.py:24-25 | the encoded query in the sql2df URL holds no space and no newline |
| Utils.EncodeSqlUnescapes | sdss/utils.py:24-25 | unescaping "%20" in the encoded query gives the stripped query with each newline turned into one space, when it held no '%' |
| Utils.ParseCsv | sdss/utils.py:27-29 | the reply fails with IndexError exactly when it has fewer than two lines; otherwise it has one row per line after the second, so a two-line reply has no rows |
| Utils.ParseCsvText | sdss/utils.py:27-29 | a reply laid out as status line, header and rows splits back into exactly that header and those rows, in order; line 0 is ignored |
| Utils.A2bHexReads | sdss/utils.py:34 | a2b_hex succeeds exactly on an even run of hex digits in either case, with byte k the value of digits 2k and 2k+1; anything else raises ValueError |
| Utils.A2bHexText | sdss/utils.py:34 | a2b_hex reads back every byte sequence written as two hex digits per byte |
| Utils.BinImgOfHex | sdss/utils.py:32-37 | binimg2array skips the first two characters and opens exactly the bytes the hex after them spells; a text after them that is not an even run of hex digits raises ValueError before any image is opened |
| Objects.SqlFrame | sdss/utils.py:22-30 | sql2df's DataFrame: a failed request raises its error; every row has one cell per column, it equals the split reply whenever that is rectangular, and a ragged reply raises ValueError |
| Utils.CutoutUrlJoin | sdss/utils.py:39-44 | the cutout URL is the fixed base followed by the expected key=value pairs joined by '&' |
| Utils.CutoutUrlParams | sdss/utils.py:39-44 | cut at '&' after the base, the URL gives ra, dec, scale, width and height with their values in that order, then opt exactly when opt is non-empty, then query exactly when query is non-empty |
| Utils.CutoutUrlKeys | sdss/utils.py:40-43 | the parameter names the service receives are ra, dec, scale, width and height, then "opt" iff opt != '' and "query" iff query != '', opt before query |
| Utils.DownloadFrame | sdss/utils.py:64-77 | download_frame succeeds exactly for fr_type 'fits' or 'jpg' and otherwise raises "fr_type should be 'jpg' or 'fits'." before any request |
| Utils.DownloadFrameFits | sdss/utils.py:64-85 | for 'fits' the URL is the rerun-301 directory of the run and camcol plus "frame-band-run6-camcol-field4.fits.bz2"; the file is saved under that name and the file kept drops exactly ".bz2" |
| Utils.DownloadFrameJpg | sdss/utils.py:64-78 | for 'jpg' the URL is the same directory plus the frame name with ".jpg", and the file is saved and kept under that name |
| Utils.FrameNameSplit | sdss/utils.py:66-72 | cut at '-', a frame name gives back "frame", the band, the run padded to 6, the camcol and the field padded to 4 |
| Photometry.FrameFilename | sdss/photometry.py:31-37 | frame_filename succeeds exactly when the id decodes, and raises what decode_objid raises otherwise |
| Photometry.FrameFilenameFields | sdss/photometry.py:31-37 | the name cut at '-' is "frame", "r" and three numbers that read back as the decoded run (at least 6 digits), camcol and field (at least 4 digits) |
| Photometry.FrameNameFields | sdss/photometry.py:122-127 | for any band without '-', the three numbers of a frame name read back as the run, camcol and field it was built from, padded to at least 6 and 4 digits |
| Photometry.FramesUrl | sdss/photometry.py:115-119 | frames_url raises TypeError exactly when run is an int, since it is concatenated to text |
| Photometry.FramesUrlRun | sdss/photometry.py:115-119 | for a run given as its decimal text the page URL names the run as written and zero-padded to 6, both reading back as the run |
| Photometry.FrameUrlJpg | sdss/photometry.py:122-131 | with jpg the URL is the FITS URL's directory plus the "irg" frame name and ".jpg", whatever the band, when the band does not start with a digit and the numbers are not negative |
| Photometry.ObjFrameUrl | sdss/photometry.py:134-141 | obj_frame_url succeeds exactly when the id decodes |
| Photometry.ObjFrameUrlFits | sdss/photometry.py:134-141 | the r-band FITS URL of an object is its frame_filename in the rerun-301 directory of release 17, with ".fits.bz2" |
| Photometry.Release16 | sdss/photometry.py:123 | frame_url's base for release 16 is the base download_frame uses |
| Photometry.DownloadFrameAgrees | sdss/photometry.py:122-131 | download_frame fetches the URL frame_url builds for release 16 and rerun 301, for a FITS frame of any band and for the "irg" JPEG |
| Photometry2.FrameFilename | sdss/photometry2.py:13-19 | this frame_filename succeeds exactly when the id decodes, with decode_objid's error otherwise |
| Photometry2.SameFrameFilename | sdss/photometry2.py:13-19 | it returns the same result as photometry's frame_filename for every argument |
| Photometry2.FrameFilenameShape | sdss/photometry2.py:15-18 | the name starts "frame-r-" and holds the run padded to at least 6 digits, the camcol and the field padded to at least 4, each reading back as the decoded value |
| Photometry2.DropLast | sdss/photometry2.py:102 | s[:-k] keeps all but the last k characters, and is empty for a shorter s and for k = 0, where s[:-0] is s[:0] |
| Photometry2.ZipAdr | sdss/photometry2.py:101 | zip_adr exists exactly when the id decodes |
| Photometry2.FitsAdrDropsBz2 | sdss/photometry2.py:101-102 | fits_adr is "data/" + frame_filename + ".fits", and zip_adr is fits_adr + ".bz2": cutting 4 characters removes exactly ".bz2" |
| Photometry2.JpgAdrIrg | sdss/photometry2.py:103 | jpg_adr is "data/" + the "irg" frame name + ".jpg": only the band and the extension change |
| Photometry2.DownloadNamesAgree | sdss/photometry2.py:101-112 | the r-band FITS URL ends in zip_adr's file name, and the "irg" JPEG URL ends in jpg_adr's file name |
| Photometry2.ScriptPaths | sdss/photometry2.py:99-103 | the script's own object decodes, and its FITS and JPEG paths are the r-band and irg frame names under "data/" |
| Core.Images.constructor | sdss/core.py:5-13 | a new Images stores its arguments unchanged (defaults scale 0.396127, 300 x 300, opt 'GS', query ''), with data None and loaded False |
| Core.Images.CreateUrl | sdss/core.py:15-21 | create_url reads the fields without changing any, and the URL starts with the cutout base |
| Core.CreateUrlParams | sdss/core.py:16-20 | cut at '&', create_url gives ra, dec, scale, width and height with the fields' texts in that order, then opt exactly when non-empty, then query exactly when non-empty |
| Core.CreateUrlKeys | sdss/core.py:17-20 | the URL's parameter names are ra, dec, scale, width, height, then "opt" iff opt != '' and "query" iff query != '', opt before query |
| Core.DefaultOptUrl | sdss/core.py:5-18 | with the default opt and query the request has six pairs, the last "opt=GS" |
| Core.Images.ImageData | sdss/core.py:23-26 | image_data requests the image at create_url() once; when it arrives it is stored and loaded is set; when the request raises, data and loaded keep their values and the error is returned |
| Core.Images.EnsureLoaded | sdss/core.py:29-30 | the request runs only when loaded is False; an image already loaded is kept and nothing is requested; afterwards loaded holds exactly when no error was raised |
| Core.Images.Show | sdss/core.py:28-40 | show requests only when nothing is loaded; a request that raises leaves nothing loaded and propagates the error; otherwise it displays channel 0, 1 or 2 for band 'u', 'g' or 'r' and the whole image for any other band, and raises IndexError when the loaded array has no such channel |
| Core.Images.ShowSeparated | sdss/core.py:42-49 | show_separated follows the same request rule as show, then shows channels 0, 1, 2 under "u-band", "g-band", "r-band", and raises IndexError unless the loaded array has all three channels |
| Core.FirstSuccess | sdss/core.py:23-26 | the index of the first network answer that succeeds: every earlier answer raises, and the one at that index succeeds |
| Core.PanelsMatchBands | sdss/core.py:32-37 | the panel titled for a band shows the channel show(band) shows |
| Core.ShowRepeatedly | sdss/core.py:28-49 | for any sequence of show and show_separated calls and any network answers: every request is create_url(); an image loaded before is never requested again; otherwise exactly the calls up to the first successful answer request, each earlier call raises its request's error, and from that answer on the image is fixed and each call raises only the IndexError its channels call for |
| Core.Display | sdss/core.py:28-49 | one call of show(b) or show_separated() follows the request rule of image_data; when nothing could be loaded it raises the request's error, otherwise only the IndexError of a missing channel |
| Core.RunStep | sdss/core.py:28-49 | one more show or show_separated call keeps the request count, the requested URL, the fixed image and the per-call errors of a run |
| Objects.PhotoObj.constructor | sdss/objects.py:8-26 | objID is stored as its text; sky_version, rerun, run, camcol, field and id_in_field are the decoded fields; every other field is None and downloaded is False |
| Objects.NewPhotoObj | sdss/objects.py:8-18 | constructing a PhotoObj succeeds exactly when its id decodes, and raises decode_objid's error otherwise |
| Objects.PhotoDownload | sdss/objects.py:28-47 | download: a failed request changes nothing; one that raises leaves downloaded as it was; one that returns sets downloaded |
| Objects.PhotoObj.Download | sdss/objects.py:28-47 | the method sends its script once and leaves exactly the state PhotoDownload gives for the reply |
| Objects.PhotoNoRows | sdss/objects.py:32-47 | an empty result sets downloaded and leaves specObjID, ra, dec, mag and type as they were |
| Objects.PhotoFirstRowWins | sdss/objects.py:35-44 | only the first row matters: two replies with the same columns and first row, whose number columns cast alike, give the same fields and the same exception |
| Objects.PhotoFound | sdss/objects.py:33-46 | a download without exception from a non-empty reply had get_image False, every needed column and castable numbers, and set specObjID, ra, dec, type and mag from the first row; mag has exactly the bands u, g, r, i, z |
| Objects.PhotoRaFromRow | sdss/objects.py:36 | ra only ever changes to the first row's "ra" cell |
| Objects.MagCells | sdss/objects.py:38-43 | mag has exactly the keys u, g, r, i, z, each the first row's cell of its own column |
| Objects.CastFloats | sdss/objects.py:33-34 | astype(float) on the named columns raises KeyError naming a missing column when one is missing, else ValueError exactly when a cell is not a number |
| Objects.PhotoObj.CutoutImage | sdss/objects.py:49-56 | download runs only if not yet done and its error propagates; "Photo object not found!" is raised exactly when ra is still None; otherwise the answer to the request for the cutout URL of ra and dec without opt and query is returned, image or error |
| Objects.SpecObj.constructor | sdss/objects.py:65-92 | specObjID is stored as its text; plate, fiberID, mjd and run2d come from decode_specid; every other field is None and downloaded is False |
| Objects.SpecDownload | sdss/objects.py:95-121 | download: a failed request changes nothing; one that raises leaves downloaded as it was; one that returns sets downloaded |
| Objects.SpecObj.Download | sdss/objects.py:95-121 | the method sends its script once and leaves exactly the state SpecDownload gives for the reply; run, camcol and field are not among the fields it writes |
| Objects.SpecNoRows | sdss/objects.py:102-121 | an empty result sets downloaded and leaves every other field as it was |
| Objects.SpecFirstRowWins | sdss/objects.py:103-120 | only the first row matters, as for PhotoObj |
| Objects.SpecFound | sdss/objects.py:103-121 | a download without exception from a non-empty reply set every field from the first row: z from "redshift", mainClass from "class", mag with the five bands |
| Objects.SpecObj.ShowSpec | sdss/objects.py:123-130 | download runs only if not yet done and its error propagates; decoding img then fails with TypeError when img is still None, and otherwise the image is what binimg2array gives for img, a hex error or the opened image |
| Objects.SpecFilenameFields | sdss/objects.py:134-144 | the file name is "spec-plate-mjd-fiber.fits" with plate, MJD and fiber padded to at least 4, 5 and 4 digits, each reading back as the number |
| Objects.DownloadSpecNames | sdss/objects.py:134-146 | the file is saved in path under the last segment of its URL; the lite and full URLs differ only by "lite/" after "spectra/" and save under the same name |
| Regions.Region.constructor | sdss/regions.py:9-16 | a new Region stores its arguments unchanged (defaults fov 0.033, 300 x 300, opt 'GS', query '') with no data |
| Regions.PixelScaleNative | sdss/regions.py:19 | the scale fov * (0.396127 / 0.033) is the native 0.396127 exactly for the default fov, and grows with the fov |
| Regions.RegionMatchesImages | sdss/regions.py:18-22 | at the default fov, download_data opens the same URL as an Images of the same centre, size and options at the default scale |
| Regions.Region.DownloadData | sdss/regions.py:18-22 | download_data requests the cutout at the region's scale once; when it arrives it is stored; when the request raises, data keeps its value and the error is returned |
| Regions.Region.Show | sdss/regions.py:24-39 | show requests only when data is None; a request that raises leaves data None and propagates the error; otherwise it displays channel 0, 1 or 2 for band 'i', 'r' or 'g' and the whole image otherwise, and raises IndexError when the stored array has no such channel |
| Regions.Region.Show3b | sdss/regions.py:41-53 | show3b follows the same request rule as show, then shows channel 2 - i under the i-th title of green, red, infrared; it succeeds exactly when the stored array has channels 0, 1 and 2 and raises IndexError otherwise |
| Regions.PanelsMatchBands | sdss/regions.py:31-50 | each show3b panel shows the channel show gives for the band in its title |
| Regions.Radius | sdss/regions.py:59-60 | an explicit radius is used unchanged; without one the radius r satisfies 2r = 60 fov |
| Regions.DefaultRadius | sdss/regions.py:59-60 | with the default fov the default radius is 0.99 arc minutes |
| Regions.CastColumns | sdss/regions.py:68-69 | the search returns the frame exactly when the query succeeds and its number columns cast, and otherwise the error of the query or of the cast |
| Regions.Region.NearestObjects | sdss/regions.py:55-70 | nearest_objects returns the reply to its script, built from n_max, ra, dec, the radius and max_g, exactly when the reply casts; a failed reply is returned as it is, and a reply that does not cast raises the cast's error for the eight number columns |
| Regions.Region.NearestSpects | sdss/regions.py:72-88 | nearest_spects does the same for the spectrum script, with the cast's error for its ten number columns |
| Regions.QueryReadsBack | sdss/regions.py:62-66 | in a script of this layout the table function is followed immediately by (ra, dec, radius), which read back in that order; the script starts "SELECT TOP n_max" and ends "ORDER BY f.distance" |
| Regions.ObjectsQuery | sdss/regions.py:62-66 | nearest_objects asks for the top n_max rows of dbo.fGetNearbyObjAllEq(ra, dec, radius), sorted by distance |
| Regions.SpectsQuery | sdss/regions.py:78-84 | nearest_spects asks for the top n_max rows of dbo.fGetNearbySpecObjEq(ra, dec, radius), sorted by distance |
| Regions.ObjectsWhere | sdss/regions.py:61-65 | a bound on g inserts "WHERE p.g<bound" right after the join condition and before the ordering, and changes nothing else; without one there is no WHERE |

## Left out

- Network and file I/O are parameters or left out. This covers `urlopen`,
  `urlretrieve`, the bz2 decompression and `os.remove` in `download_frame`,
  `unzip` and `download_file`. Decompression keeps the content, and
  `os.remove` deletes the compressed file. The model states which files
  are written and which one is kept, not their bytes.
- Decoding images is left out, because these are opaque decoders. This
  covers `plt.imread` (the `fetch` parameter) and, in `binimg2array`,
  PIL's `Image.open` with `np.array` (the `openImage` parameter). The hex
  step `binascii.a2b_hex` is modelled.
- `show_spect` and `show_object` in sdss/utils.py are left out. They are a
  fetch or a query followed by a plot, and neither result is returned.
- `get_df`, `df_radec2pixel`, `obj_from_jpg`, `flux_star` and `flux_sky`
  are left out. They rely on astropy WCS, numpy slicing at rounded
  floating-point pixel positions and square-root masks. So is the
  photometry2 script beyond the paths at lines 99-112.
- Plotting is left out: figures, colour maps, `figsize` and axis styling.
  The display methods are modelled by what they fetch, which channel each
  panel shows and numpy's IndexError for a missing channel. The checks
  matplotlib's `imshow` makes of the array it is given (a whole image
  with two or five channels raises TypeError there) are not modelled.
- Core.Images.Show: success means numpy's indexing succeeded; `imshow`'s TypeError for a shape it cannot draw is not modelled, as plotting is left out.
- Core.Images.ShowSeparated: success means numpy's indexing succeeded; `imshow`'s TypeError for a shape it cannot draw is not modelled, as plotting is left out.
- Core.Display: success means numpy's indexing succeeded; `imshow`'s TypeError for a shape it cannot draw is not modelled, as plotting is left out.
- Core.ShowRepeatedly: success means numpy's indexing succeeded; `imshow`'s TypeError for a shape it cannot draw is not modelled, as plotting is left out.
- Regions.Region.Show: success means numpy's indexing succeeded; `imshow`'s TypeError for a shape it cannot draw is not modelled, as plotting is left out.
- Regions.Region.Show3b: success means numpy's indexing succeeded; `imshow`'s TypeError for a shape it cannot draw is not modelled, as plotting is left out.
- `PhotoObj.show`: it is `cutout_image` followed by a plot, and is covered
  by `Objects.PhotoObj.CutoutImage`.
- Floating point is abstract. `str()` of a float is the parameter `fmt`,
  so the model does not decide how 0.99 or 0.396127 print. Reals are exact.
  Python's inexact `0.396127 / 0.033` is not modelled.
- pandas is modelled only as far as the code observes it. The columns and
  rows are kept as text. `astype(float)` is a check through `isFloat`, and
  the converted float values are not modelled: the fields keep the cell's
  text.
- Numerals.ParseInt: it accepts ASCII digits only. Python's `int()` also
  accepts other Unicode decimal digits, such as Arabic-Indic or full-width
  ones. For such a string `decode_objid` would decode where the model
  raises ValueError.
- The failures of `urlretrieve` in `download_frame` and `download_spec` are
  not modelled, because the file transfers themselves are left out.
- Objects.SqlFrame: a reply row of the wrong length is modelled as
  ValueError. pandas pads every row to the longest row's length and raises
  ValueError unless that length is the header's, so the two differ only
  when some row is as long as the header and others are shorter: pandas
  then pads the shorter ones with None.
- Objects.CastFloats: when several selected columns are missing, pandas'
  KeyError lists all of them. The model names the first missing one.
- Objects.PhotoDownload: with `get_image` the code calls
  `self.quick_image`, which the class does not define. The model raises
  AttributeError there and does not model an image.
- `decode_specid`, `photo_types` and `sql_columns` are not part of this
  model. They are the parameters `decodeSpecId` and `types`.
- `dist2sel` is left out: it is set to None in both constructors and never
  assigned or read.
- Regions.Region.DataUrl has no contract of its own. Its URL is pinned
  down by `Regions.RegionMatchesImages` and the cutout lemmas in `Utils`.
- Photometry.FrameUrlJpg: the lemma needs a band that does not start with a
  digit, and non-negative numbers. For a band such as "1", the first
  replace can also rewrite a camcol of 1. The function models that case,
  but no lemma states its result.
- Regions.ObjectsQuery and Regions.SpectsQuery: ra, dec and radius must be
  free of ',' and ')' for the arguments to read back. The texts `str()`
  gives for floats satisfy this.
- Utils.CutoutUrlParams, Utils.CutoutUrlKeys, Core.CreateUrlParams and
  Core.CreateUrlKeys need values without '&'. A value with one splits into
  extra pairs, as it would for the service.
