/**
  The C layer of xetex_layout: the FreeType library singleton with its
  deferred shutdown, the face-count bookkeeping and AFM companion name inside
  `initialize_ft`, and two HarfBuzz font callbacks that map a FreeType lookup
  onto HarfBuzz's conventions.

  FreeType and HarfBuzz are not modelled: each call into them is an oracle
  value supplied by the caller.
*/
module Layout {
  import opened CTypes
  import opened BridgeCore

  // ---------------------------------------------------------------------------
  // The FreeType library singleton

  /** The three globals `ft_lib`, `ft_face_count` and `ft_lib_shutdown_pending`. */
  datatype FtState = FtState(lib: Ptr, faceCount: int, shutdownPending: bool)

  /** What `FT_Init_FreeType` reports: a fresh, non-null library, or an error code. */
  datatype InitResult = InitOk(handle: Ptr) | InitFailed(err: int)

  /** A sane `FT_Init_FreeType`: success never hands back NULL. */
  predicate SaneInit(init: InitResult)
  {
    init.InitOk? ==> init.handle != Null
  }

  datatype LibStep = LibStep(after: FtState, lib: Ptr)

  /** `get_ft_library`: initialise the library if there is none yet, and return it (NULL on failure). */
  function GetLibrary(s: FtState, init: InitResult): (res: LibStep)
    requires SaneInit(init)
    ensures res.after.faceCount == s.faceCount && res.after.shutdownPending == s.shutdownPending
    ensures res.lib == res.after.lib
    ensures s.lib != Null ==> res.after == s
    ensures s.lib == Null && init.InitFailed? ==> res.lib == Null && res.after == s
    ensures s.lib == Null && init.InitOk? ==> res.lib == init.handle
    ensures res.lib != Null <==> s.lib != Null || init.InitOk?
  {
    if s.lib != Null then LibStep(s, s.lib)
    else match init
      case InitOk(h) => LibStep(s.(lib := h), h)
      case InitFailed(_) => LibStep(s, Null)
  }

  datatype ShutdownStep = ShutdownStep(after: FtState, released: Option<Ptr>)

  /** Shutdown has been requested, no face is live and there is a library to release. */
  predicate ShutdownDue(s: FtState)
  {
    s.shutdownPending && s.faceCount == 0 && s.lib != Null
  }

  /** `maybe_shutdown_ft`: release the library once shutdown is due, reporting what `FT_Done_FreeType` got. */
  function MaybeShutdown(s: FtState): (res: ShutdownStep)
    ensures res.released.Some? <==> ShutdownDue(s)
    ensures res.released.Some? ==> res.released.value == s.lib && res.after == FtState(Null, s.faceCount, false)
    ensures res.released.None? ==> res.after == s
  {
    if s.shutdownPending && s.faceCount == 0 && s.lib != Null then
      ShutdownStep(FtState(Null, s.faceCount, false), Some(s.lib))
    else
      ShutdownStep(s, None)
  }

  /** Once the library exists, later calls return the same one whatever FreeType would report. */
  lemma LibraryInitOnce(s: FtState, first: InitResult, second: InitResult)
    requires SaneInit(first) && SaneInit(second)
    requires GetLibrary(s, first).lib != Null
    ensures var one := GetLibrary(s, first);
            GetLibrary(one.after, second) == LibStep(one.after, one.lib)
  {
  }

  /** A second shutdown check right after a release does nothing. */
  lemma ShutdownOnce(s: FtState)
    ensures MaybeShutdown(MaybeShutdown(s).after) == ShutdownStep(MaybeShutdown(s).after, None)
  {
  }

  /** While a face is live the library is never released. */
  lemma NoShutdownWithLiveFaces(s: FtState)
    requires s.faceCount != 0
    ensures MaybeShutdown(s) == ShutdownStep(s, None)
  {
  }

  /** After a release, the next `get_ft_library` asks FreeType for a new library. */
  lemma ReinitAfterShutdown(s: FtState, init: InitResult)
    requires SaneInit(init) && ShutdownDue(s)
    ensures GetLibrary(MaybeShutdown(s).after, init).lib == (if init.InitOk? then init.handle else Null)
  {
  }

  // ---------------------------------------------------------------------------
  // The AFM companion file name

  /** `strrchr(s, c)` for a character other than NUL: the position of the last `c`. */
  function LastIndexOf(s: string, c: char): (r: Option<nat>)
    ensures r.Some? ==> r.value < |s| && s[r.value] == c && forall j :: r.value < j < |s| ==> s[j] != c
    ensures r.None? <==> c !in s
    decreases |s|
  {
    if |s| == 0 then None
    else if s[|s| - 1] == c then Some(|s| - 1)
    else
      var r := LastIndexOf(s[..|s| - 1], c);
      assert s == s[..|s| - 1] + [s[|s| - 1]];
      r
  }

  const AFM_EXT: string := ".afm"

  /** The AFM name for `path`: the text from the last `.` replaced by `.afm`, or `.afm` appended. */
  function AfmNameOf(path: CString): (n: CString)
  {
    assert '\0' !in AFM_EXT;
    match LastIndexOf(path, '.')
    case Some(d) => path[..d] + AFM_EXT
    case None => path + AFM_EXT
  }

  /**
    The AFM name is some prefix of the path followed by `.afm`: either the
    whole path, when it has no `.`, or the path up to its last `.`.
  */
  lemma AfmNameShape(path: CString)
    ensures var n := AfmNameOf(path);
            var base := n[..|n| - 4];
            && |n| >= 4 && n[|n| - 4..] == AFM_EXT
            && |base| <= |path| && base == path[..|base|]
            && (base == path <==> '.' !in path)
            && (base != path ==> path[|base|] == '.' && '.' !in path[|base| + 1..])
  {
    var n := AfmNameOf(path);
    var d := LastIndexOf(path, '.');
    if d.Some? {
      assert n == path[..d.value] + AFM_EXT;
      assert n[..|n| - 4] == path[..d.value];
      var tail := path[d.value + 1..];
      forall j | 0 <= j < |tail|
        ensures tail[j] != '.'
      {
        assert tail[j] == path[d.value + 1 + j];
      }
    } else {
      assert n == path + AFM_EXT;
      assert n[..|n| - 4] == path;
    }
  }

  /** The name never needs more than `plen + 4` characters, so `plen + 5` bytes hold it with its NUL. */
  lemma AfmNameFits(path: CString)
    ensures |AfmNameOf(path)| <= |path| + 4
  {
  }

  /** Deriving the AFM name of an AFM name changes nothing: its last `.` is the one of `.afm`. */
  lemma AfmNameIdempotent(path: CString)
    ensures AfmNameOf(AfmNameOf(path)) == AfmNameOf(path)
  {
    var n := AfmNameOf(path);
    var base := n[..|n| - 4];
    assert n == base + AFM_EXT;
    assert n[|base|] == '.';
    assert forall j :: |base| < j < |n| ==> n[j] != '.';
    var d := LastIndexOf(n, '.');
    assert d == Some(|base|);
  }

  /** The last `.` may sit in a directory component: `fonts.d/cmr10` becomes `fonts.afm`. */
  lemma AfmNameDirectoryDot()
    ensures AfmNameOf("fonts.d/cmr10") == "fonts.afm"
  {
    assert LastIndexOf("fonts.d/cmr10", '.') == Some(5);
  }

  /**
    The AFM name as `initialize_ft` builds it: copy the path into a buffer of
    `plen + 5` characters, find the last `.` and write `.afm` and a NUL there,
    or at the end when there is none.
  */
  method BuildAfmName(path: CString) returns (afm: array<char>)
    ensures fresh(afm) && afm.Length == |path| + 5
    ensures CStr(afm[..]) == AfmNameOf(path)
  {
    var plen := |path|;
    afm := new char[plen + 5];
    forall i | 0 <= i < plen {
      afm[i] := path[i];
    }
    afm[plen] := '\0';
    assert afm[..plen] == path;
    var dot := LastIndexOf(afm[..plen], '.');
    var at := if dot.Some? then dot.value else plen;
    afm[at] := '.';
    afm[at + 1] := 'a';
    afm[at + 2] := 'f';
    afm[at + 3] := 'm';
    afm[at + 4] := '\0';
    assert afm[..at + 4] == AfmNameOf(path);
    assert afm[..] == afm[..at + 4] + ['\0'] + afm[at + 5..];
    CStrStopsAtNul(afm[..at + 4], afm[at + 5..]);
    CStrOfCString(AfmNameOf(path));
  }

  // ---------------------------------------------------------------------------
  // initialize_ft: face-count bookkeeping

  /** What `FT_New_Memory_Face` reports about a face it created. */
  datatype FaceInfo = FaceInfo(scalable: bool, sfnt: bool)

  /** The answers of the foreign calls `initialize_ft` makes, in call order. */
  datatype FontIo = FontIo(
    init: InitResult,           // FT_Init_FreeType, asked only when there is no library yet
    fileRead: bool,             // a handle opened in one of the three formats and all of it read
    face: Option<FaceInfo>,     // FT_New_Memory_Face: None on error
    afmBufferAllocated: bool,   // malloc(plen + 5) for the AFM name
    hbOk: bool)                 // initialize_hb_font returned 0 (its malloc succeeded)

  datatype InitFtStep = InitFtStep(after: FtState, result: int, afmName: Option<CString>)

  /** A scalable face was created: the call counts it and keeps it, whatever HarfBuzz then reports. */
  predicate FaceKept(s: FtState, io: FontIo)
    requires SaneInit(io.init)
  {
    GetLibrary(s, io.init).lib != Null && io.fileRead && io.face.Some? && io.face.value.scalable
  }

  /** `initialize_ft(font, pathname, index)` on the globals `s`. */
  function InitFt(s: FtState, pathname: CString, index: int, io: FontIo): (res: InitFtStep)
    requires SaneInit(io.init)
  {
    var ls := GetLibrary(s, io.init);
    if ls.lib == Null || !io.fileRead || io.face.None? then
      InitFtStep(ls.after, -1, None)
    else
      var counted := ls.after.(faceCount := ls.after.faceCount + 1);
      var face := io.face.value;
      if !face.scalable then
        InitFtStep(counted.(faceCount := counted.faceCount - 1), -1, None)
      else
        var afm := if index == 0 && !face.sfnt && io.afmBufferAllocated then Some(AfmNameOf(pathname)) else None;
        InitFtStep(counted, if io.hbOk then 0 else -1, afm)
  }

  /**
    The face count rises by one exactly when a scalable face was created, and
    stays put on every path that returns before that point. The library is the
    one `get_ft_library` leaves; the shutdown flag is never touched.
  */
  lemma InitFtFaceCount(s: FtState, pathname: CString, index: int, io: FontIo)
    requires SaneInit(io.init)
    ensures var res := InitFt(s, pathname, index, io);
            && res.after.faceCount == s.faceCount + (if FaceKept(s, io) then 1 else 0)
            && res.after.lib == GetLibrary(s, io.init).after.lib
            && res.after.shutdownPending == s.shutdownPending
  {
  }

  /**
    `initialize_ft` returns 0 exactly when it kept a scalable face and HarfBuzz
    initialised; otherwise it returns -1. A HarfBuzz failure is a failed call
    that still leaves the face counted.
  */
  lemma InitFtResult(s: FtState, pathname: CString, index: int, io: FontIo)
    requires SaneInit(io.init)
    ensures var res := InitFt(s, pathname, index, io);
            && (res.result == 0 || res.result == -1)
            && (res.result == 0 <==> FaceKept(s, io) && io.hbOk)
            && (res.result == -1 && !FaceKept(s, io) ==> res.after.faceCount == s.faceCount)
            && (FaceKept(s, io) && !io.hbOk ==> res.result == -1 && res.after.faceCount == s.faceCount + 1)
  {
  }

  /** An AFM name is derived only for face index 0 of a kept face that is not SFNT-based. */
  lemma InitFtAfmOnlyForType1(s: FtState, pathname: CString, index: int, io: FontIo)
    requires SaneInit(io.init)
    ensures var res := InitFt(s, pathname, index, io);
            && (res.afmName.Some? <==> FaceKept(s, io) && index == 0 && !io.face.value.sfnt && io.afmBufferAllocated)
            && (res.afmName.Some? ==> res.afmName.value == AfmNameOf(pathname))
  {
  }

  /** The FreeType globals of the layout library. */
  class FreeType {
    var lib: Ptr
    var faceCount: int
    var shutdownPending: bool

    function Snapshot(): FtState
      reads this
    {
      FtState(lib, faceCount, shutdownPending)
    }

    /** The globals at program start: no library, no faces, no shutdown requested. */
    constructor ()
      ensures Snapshot() == FtState(Null, 0, false)
    {
      lib, faceCount, shutdownPending := Null, 0, false;
    }

    /** `get_ft_library()`. */
    method GetFtLibrary(init: InitResult) returns (r: Ptr)
      requires SaneInit(init)
      modifies this
      ensures LibStep(Snapshot(), r) == GetLibrary(old(Snapshot()), init)
    {
      if lib == Null {
        match init
        case InitOk(h) =>
          lib := h;
        case InitFailed(_) =>
          return Null;
      }
      r := lib;
    }

    /** `maybe_shutdown_ft()`; `released` is the library handed to `FT_Done_FreeType`, if any. */
    method MaybeShutdownFt() returns (released: Option<Ptr>)
      modifies this
      ensures ShutdownStep(Snapshot(), released) == MaybeShutdown(old(Snapshot()))
    {
      released := None;
      if shutdownPending && faceCount == 0 && lib != Null {
        released := Some(lib);
        lib := Null;
        shutdownPending := false;
      }
    }

    /**
      `initialize_ft(font, pathname, index)`: the returned code, and the AFM
      name passed to `ttbc_input_open` when one is looked up.
    */
    method InitializeFt(pathname: CString, index: int, io: FontIo) returns (r: int, afmName: Option<CString>)
      requires SaneInit(io.init)
      modifies this
      ensures InitFtStep(Snapshot(), r, afmName) == InitFt(old(Snapshot()), pathname, index, io)
    {
      afmName := None;
      var l := GetFtLibrary(io.init);
      if l == Null {
        return -1, None;
      }
      if !io.fileRead {
        return -1, None;
      }
      if io.face.None? {
        return -1, None;
      }
      faceCount := faceCount + 1;
      var face := io.face.value;
      if !face.scalable {
        faceCount := faceCount - 1;
        return -1, None;
      }
      if index == 0 && !face.sfnt && io.afmBufferAllocated {
        var buf := BuildAfmName(pathname);
        afmName := Some(CStr(buf[..]));
      }
      r := if io.hbOk then 0 else -1;
    }
  }

  // ---------------------------------------------------------------------------
  // HarfBuzz callbacks over FreeType lookups

  /** FreeType's load flags: `FT_LOAD_NO_SCALE` is bit 0, `FT_LOAD_VERTICAL_LAYOUT` bit 4. */
  const FT_LOAD_NO_SCALE: bv32 := 1
  const FT_LOAD_VERTICAL_LAYOUT: bv32 := 16

  /** The flags `get_glyph_advance_raw` passes to `FT_Get_Advance`. */
  function AdvanceFlags(vertical: int): (flags: bv32)
    ensures flags & FT_LOAD_NO_SCALE != 0
    ensures flags & FT_LOAD_VERTICAL_LAYOUT != 0 <==> vertical != 0
    ensures flags & !(FT_LOAD_NO_SCALE | FT_LOAD_VERTICAL_LAYOUT) == 0
  {
    var flags := FT_LOAD_NO_SCALE;
    if vertical != 0 then flags | FT_LOAD_VERTICAL_LAYOUT else flags
  }

  /** What `FT_Get_Advance` reports: an advance in font units, or an error. */
  datatype Advance = AdvanceOk(advance: int) | AdvanceError(err: int)

  /**
    `get_glyph_advance_raw(face, gid, vertical)`: 0 when the lookup fails, the
    unscaled advance for horizontal layout, and its negation for vertical
    layout (HarfBuzz's y axis points up).
  */
  function GlyphAdvanceRaw(getAdvance: (u32, bv32) -> Advance, gid: u32, vertical: int): (r: int)
    ensures var a := getAdvance(gid, AdvanceFlags(vertical));
            && (a.AdvanceError? ==> r == 0)
            && (a.AdvanceOk? && vertical == 0 ==> r == a.advance)
            && (a.AdvanceOk? && vertical != 0 ==> r == -a.advance)
  {
    match getAdvance(gid, AdvanceFlags(vertical))
    case AdvanceError(_) => 0
    case AdvanceOk(advance) => if vertical != 0 then -advance else advance
  }

  /**
    A face whose advance does not depend on the layout direction gives
    vertical advances that are the horizontal ones negated; both are 0 on a
    failed lookup.
  */
  lemma VerticalMirrorsHorizontal(getAdvance: (u32, bv32) -> Advance, gid: u32)
    requires getAdvance(gid, AdvanceFlags(1)) == getAdvance(gid, AdvanceFlags(0))
    ensures GlyphAdvanceRaw(getAdvance, gid, 1) == -GlyphAdvanceRaw(getAdvance, gid, 0)
  {
  }

  /** The callback's result and what it leaves in `*glyph`. */
  datatype GlyphLookup = GlyphLookup(found: bool, glyph: u32)

  /**
    `hb_nominal_glyph_func`: glyph 0 (`.notdef`) from `FT_Get_Char_Index`
    means the font has no glyph for `unicode`; the out-parameter is then left
    as it was.
  */
  function NominalGlyph(charIndex: u32 -> u32, unicode: u32, glyph: u32): (r: GlyphLookup)
    ensures r.found <==> charIndex(unicode) != 0
    ensures r.found ==> r.glyph == charIndex(unicode) && r.glyph != 0
    ensures !r.found ==> r.glyph == glyph
  {
    var gid := charIndex(unicode);
    if gid == 0 then GlyphLookup(false, glyph) else GlyphLookup(true, gid)
  }
}
