// The features of a mount: what the options ask for, what depends on what, and what is given
// up when a layer cannot support it.

module MountFeatures {
  import opened Tree

  /** The texts redirect_dir may be given; any other is an error. */
  datatype RedirectMode = On | Follow | Off | NoFollow | OtherText

  datatype Opt =
    | UpperDir | LowerDir | WorkDir | RedirectDir(mode: RedirectMode)
    | Index(on: bool) | NfsExport(on: bool) | Metacopy(on: bool)
    | Volatile | UserXattr | OverrideCreds(wellFormed: bool) | Neutral | Unknown

  /** The module parameters. */
  datatype Defaults = Defaults(
    redirectDir: bool, alwaysFollow: bool, index: bool, nfsExport: bool, metacopy: bool)

  /** What the layers can do: the work directory is there, extended attributes can be set,
      the upper layer has file handles; for each lower layer, whether it has file handles
      and whether its uuid is of use; and whether an index directory can be made. */
  datatype Layers = Layers(
    workdir: bool, xattr: bool, upperHandles: bool, lowerHandles: seq<bool>, uuidOk: seq<bool>, indexDir: bool)

  predicate IsBad(o: Opt) {
    o.Unknown? || (o.OverrideCreds? && !o.wellFormed)
  }

  function Given(asked: Option<bool>, def: bool): bool {
    match asked
    case Some(v) => v
    case None => def
  }

  /** The last value an option was given, if it was. */
  function Asked<T>(opts: seq<Opt>, which: Opt -> Option<T>): Option<T> {
    if opts == [] then None
    else
      match which(opts[|opts| - 1])
      case Some(v) => Some(v)
      case None => Asked(opts[..|opts| - 1], which)
  }

  function OfMetacopy(o: Opt): Option<bool> {
    if o.Metacopy? then Some(o.on) else None
  }

  function OfNfsExport(o: Opt): Option<bool> {
    if o.NfsExport? then Some(o.on) else None
  }

  function OfIndex(o: Opt): Option<bool> {
    if o.Index? then Some(o.on) else None
  }

  function OfRedirect(o: Opt): Option<RedirectMode> {
    if o.RedirectDir? then Some(o.mode) else None
  }

  /** What is asked for. */
  datatype Asks = Asks(
    upper: bool, lower: bool, workdir: bool, metacopy: Option<bool>, nfsExport: Option<bool>, index: Option<bool>,
    redirect: Option<RedirectMode>, isVolatile: bool, userXattr: bool)

  /** Of each option the last value. */
  function AskedFor(opts: seq<Opt>): Asks {
    Asks(UpperDir in opts, LowerDir in opts, WorkDir in opts, Asked(opts, OfMetacopy), Asked(opts, OfNfsExport),
         Asked(opts, OfIndex), Asked(opts, OfRedirect), Volatile in opts, UserXattr in opts)
  }

  /** What the options set. */
  datatype Settings = Settings(
    upper: bool, lower: bool, workdir: bool, metacopy: bool, nfsExport: bool, index: bool, mode: RedirectMode,
    isVolatile: bool, userXattr: bool)

  /** What is set when this is asked for. */
  function Set(a: Asks, d: Defaults): Settings {
    Settings(a.upper, a.lower, a.workdir, Given(a.metacopy, d.metacopy), Given(a.nfsExport, d.nfsExport),
             Given(a.index, d.index), Mode(a, d), a.isVolatile, a.userXattr)
  }

  function Mode(a: Asks, d: Defaults): RedirectMode {
    match a.redirect
    case Some(mode) => mode
    case None => if d.redirectDir then On else Off
  }

  function Apply(s: Settings, o: Opt): Settings {
    match o
    case UpperDir => s.(upper := true)
    case LowerDir => s.(lower := true)
    case WorkDir => s.(workdir := true)
    case RedirectDir(mode) => s.(mode := mode)
    case Index(on) => s.(index := on)
    case NfsExport(on) => s.(nfsExport := on)
    case Metacopy(on) => s.(metacopy := on)
    case Volatile => s.(isVolatile := true)
    case UserXattr => s.(userXattr := true)
    case _ => s
  }

  function ApplyAll(s: Settings, opts: seq<Opt>): Settings {
    if opts == [] then s else Apply(ApplyAll(s, opts[..|opts| - 1]), opts[|opts| - 1])
  }

  lemma InOneMore(opts: seq<Opt>, o: Opt)
    requires opts != []
    ensures o in opts <==> o in opts[..|opts| - 1] || o == opts[|opts| - 1]
  {
    assert opts == opts[..|opts| - 1] + [opts[|opts| - 1]];
  }

  /** The effect of one more option. */
  function AskMore(a: Asks, o: Opt): Asks {
    match o
    case UpperDir => a.(upper := true)
    case LowerDir => a.(lower := true)
    case WorkDir => a.(workdir := true)
    case RedirectDir(mode) => a.(redirect := Some(mode))
    case Index(on) => a.(index := Some(on))
    case NfsExport(on) => a.(nfsExport := Some(on))
    case Metacopy(on) => a.(metacopy := Some(on))
    case Volatile => a.(isVolatile := true)
    case UserXattr => a.(userXattr := true)
    case _ => a
  }

  lemma AskedOneMore(opts: seq<Opt>)
    requires opts != []
    ensures AskedFor(opts) == AskMore(AskedFor(opts[..|opts| - 1]), opts[|opts| - 1])
  {
    InOneMore(opts, UpperDir);
    InOneMore(opts, LowerDir);
    InOneMore(opts, WorkDir);
    InOneMore(opts, Volatile);
    InOneMore(opts, UserXattr);
  }

  lemma SetMode(a: Asks, d: Defaults, mode: RedirectMode)
    ensures Set(a.(redirect := Some(mode)), d) == Set(a, d).(mode := mode)
  {
  }

  lemma SetIndex(a: Asks, d: Defaults, on: bool)
    ensures Set(a.(index := Some(on)), d) == Set(a, d).(index := on)
  {
  }

  lemma SetNfsExport(a: Asks, d: Defaults, on: bool)
    ensures Set(a.(nfsExport := Some(on)), d) == Set(a, d).(nfsExport := on)
  {
  }

  lemma SetMetacopy(a: Asks, d: Defaults, on: bool)
    ensures Set(a.(metacopy := Some(on)), d) == Set(a, d).(metacopy := on)
  {
  }

  lemma SetFlag(a: Asks, d: Defaults, o: Opt)
    requires o.UpperDir? || o.LowerDir? || o.WorkDir? || o.Volatile? || o.UserXattr?
    ensures Set(AskMore(a, o), d) == Apply(Set(a, d), o)
  {
  }

  lemma SetMore(a: Asks, d: Defaults, o: Opt)
    ensures Set(AskMore(a, o), d) == Apply(Set(a, d), o)
  {
    if o.UpperDir? || o.LowerDir? || o.WorkDir? || o.Volatile? || o.UserXattr? {
      SetFlag(a, d, o);
    } else {
      hide Set, Mode;
      match o
      case RedirectDir(mode) => SetMode(a, d, mode);
      case Index(on) => SetIndex(a, d, on);
      case NfsExport(on) => SetNfsExport(a, d, on);
      case Metacopy(on) => SetMetacopy(a, d, on);
      case _ =>
    }
  }

  /** Of each option the last value counts. */
  lemma {:induction false} LastCounts(d: Defaults, opts: seq<Opt>)
    ensures ApplyAll(Set(AskedFor([]), d), opts) == Set(AskedFor(opts), d)
  {
    if opts != [] {
      var last := |opts| - 1;
      LastCounts(d, opts[..last]);
      AskedOneMore(opts);
      SetMore(AskedFor(opts[..last]), d, opts[last]);
    }
  }

  // --------------------------------------------------- what a mount is to have

  /** The redirect mode says that redirects are followed. */
  predicate ModeFollows(a: Asks, d: Defaults) {
    Mode(a, d) in {On, Follow} || (Mode(a, d) == Off && d.alwaysFollow)
  }

  /** Redirects may be made; without an upper layer it is enough that they are followed. */
  predicate ModeMakes(a: Asks, d: Defaults) {
    Mode(a, d) == On || (!a.upper && ModeFollows(a, d))
  }

  /** Metadata-only copy-up, with no option about redirects, turns redirects on. */
  predicate MetacopyTurnsOn(a: Asks, d: Defaults) {
    Given(a.metacopy, d.metacopy) && a.redirect.None?
  }

  predicate Follows(a: Asks, d: Defaults) {
    ModeFollows(a, d) || MetacopyTurnsOn(a, d)
  }

  /** Nothing about the index or redirects stands in the way of export. */
  predicate CanExport(a: Asks, d: Defaults) {
    Given(a.nfsExport, d.nfsExport) && a.index != Some(false) && (a.upper || !Follows(a, d))
  }

  /** No redirect mode stands in the way of metadata-only copy-up. */
  predicate MetacopyStays(a: Asks, d: Defaults) {
    Given(a.metacopy, d.metacopy) && (ModeMakes(a, d) || a.redirect.None?)
  }

  predicate WantsRedirect(a: Asks, d: Defaults) {
    (ModeMakes(a, d) || MetacopyTurnsOn(a, d)) && !a.userXattr
  }

  predicate WantsMetacopy(a: Asks, d: Defaults) {
    MetacopyStays(a, d) && (CanExport(a, d) ==> a.metacopy.Some?) && !a.userXattr
  }

  predicate WantsExport(a: Asks, d: Defaults) {
    CanExport(a, d) && a.metacopy != Some(true)
  }

  predicate WantsIndex(a: Asks, d: Defaults) {
    if a.upper then Given(a.index, d.index || Given(a.nfsExport, d.nfsExport)) else CanExport(a, d)
  }

  /** Metadata-only copy-up is asked for, and a redirect mode that does not make redirects. */
  predicate RedirectConflict(a: Asks, d: Defaults) {
    Mode(a, d).OtherText? || (a.metacopy == Some(true) && a.redirect.Some? && !ModeMakes(a, d))
  }

  /** Export is asked for, and no index or metadata-only copy-up. */
  predicate ExportConflict(a: Asks, d: Defaults) {
    && a.nfsExport == Some(true)
    && ((a.index == Some(false) && (a.upper || !Follows(a, d))) || (a.metacopy == Some(true) && a.upper))
  }

  /** So are attributes that carry neither redirects nor metadata-only copies, and one of these. */
  predicate XattrConflict(a: Asks, d: Defaults) {
    a.userXattr && ((a.redirect.Some? && ModeFollows(a, d)) || a.metacopy == Some(true))
  }

  /** Two things that cannot both be had. */
  predicate Conflict(a: Asks, d: Defaults) {
    RedirectConflict(a, d) || ExportConflict(a, d) || XattrConflict(a, d)
  }

  /** The options are well formed, and no two contradict each other. */
  predicate Accepted(opts: seq<Opt>, d: Defaults) {
    (forall o | o in opts :: !IsBad(o)) && !Conflict(AskedFor(opts), d)
  }

  lemma AskedIsHad(a: Asks, d: Defaults)
    requires !Conflict(a, d)
    ensures a.metacopy.Some? ==> WantsMetacopy(a, d) == a.metacopy.value
    ensures a.redirect == Some(On) ==> WantsRedirect(a, d)
    ensures a.upper && a.index.Some? ==> WantsIndex(a, d) == a.index.value
    ensures a.nfsExport == Some(false) ==> !WantsExport(a, d)
    ensures a.nfsExport == Some(true) ==> (WantsExport(a, d) <==> a.upper || !Follows(a, d))
  {
  }

  /** The features a mount is to have go together. */
  lemma WantedTogether(a: Asks, d: Defaults)
    requires !Conflict(a, d)
    ensures WantsMetacopy(a, d) ==> WantsRedirect(a, d) && !WantsExport(a, d)
    ensures WantsRedirect(a, d) ==> Follows(a, d)
    ensures WantsExport(a, d) ==> WantsIndex(a, d)
  {
  }

  /** What is left of redirects and metadata-only copy-up conflicts with the attributes exactly
      when it was asked for. */
  lemma ResolvedXattr(a: Asks, d: Defaults, follows: bool, metacopy: bool)
    requires !RedirectConflict(a, d) && !ExportConflict(a, d)
    requires follows == Follows(a, d) && metacopy == (MetacopyStays(a, d) && (CanExport(a, d) ==> a.metacopy.Some?))
    ensures a.userXattr && ((follows && a.redirect.Some?) || (metacopy && a.metacopy.Some?)) <==> XattrConflict(a, d)
  {
  }

  /** No option about a feature is given. */
  predicate NothingAsked(opts: seq<Opt>) {
    forall o :: o in opts ==> o.UpperDir? || o.LowerDir? || o.WorkDir? || o.Volatile? || o.Neutral?
  }

  lemma {:induction false} NotAsked<T>(opts: seq<Opt>, which: Opt -> Option<T>)
    requires forall o :: o in opts ==> which(o) == None
    ensures Asked(opts, which) == None
  {
    if opts != [] {
      assert opts[|opts| - 1] in opts;
      assert forall o :: o in opts[..|opts| - 1] ==> o in opts;
      NotAsked(opts[..|opts| - 1], which);
    }
  }

  /** Then the parameters of the module decide: redirects are followed if they are made or always
      followed or needed by metadata-only copy-up; export needs that they are not followed or that
      there is an upper layer, and drives out metadata-only copy-up. */
  lemma DefaultsDecide(opts: seq<Opt>, d: Defaults)
    requires NothingAsked(opts)
    ensures var a, u := AskedFor(opts), UpperDir in opts;
            var follows := d.redirectDir || d.alwaysFollow || d.metacopy;
            var exports := d.nfsExport && (u || !follows);
            && Accepted(opts, d) && !a.userXattr
            && Follows(a, d) == follows && WantsExport(a, d) == exports
            && WantsRedirect(a, d) == (d.redirectDir || d.metacopy || (!u && d.alwaysFollow))
            && WantsMetacopy(a, d) == (d.metacopy && !exports)
            && WantsIndex(a, d) == (if u then d.index || d.nfsExport else exports)
  {
    NotAsked(opts, OfMetacopy);
    NotAsked(opts, OfNfsExport);
    NotAsked(opts, OfIndex);
    NotAsked(opts, OfRedirect);
  }

  // ------------------------------------------------------- what the layers can do

  predicate AllTo(bs: seq<bool>, n: nat)
    requires n <= |bs|
  {
    forall i :: 0 <= i < n ==> bs[i]
  }

  predicate LowersCan(layers: Layers) {
    AllTo(layers.lowerHandles, |layers.lowerHandles|) && AllTo(layers.uuidOk, |layers.uuidOk|)
  }

  /** All that the index needs of the layers but the index directory itself. */
  predicate BarIndexDir(layers: Layers) {
    layers.workdir && layers.xattr && layers.upperHandles && LowersCan(layers)
  }

  predicate CanIndex(layers: Layers) {
    BarIndexDir(layers) && layers.indexDir
  }

  class Config {
    var upper: bool
    var lower: bool
    var workdir: bool
    var redirectMode: RedirectMode
    var redirectDir: bool
    var redirectFollow: bool
    var index: bool
    var nfsExport: bool
    var metacopy: bool
    var isVolatile: bool
    var userXattr: bool
    /** The directories made in the work directory, and whether the mount is read-only. */
    var hasWorkDir: bool
    var hasIndexDir: bool
    var readOnly: bool

    function Current(): Settings reads this {
      Settings(upper, lower, workdir, metacopy, nfsExport, index, redirectMode, isVolatile, userXattr)
    }

    /** What every mount that succeeds has. */
    ghost predicate Consistent() reads this {
      && (metacopy ==> redirectDir)
      && (redirectDir ==> redirectFollow)
      && !(nfsExport && metacopy)
      && (userXattr ==> !redirectDir && !redirectFollow && !metacopy)
      && (nfsExport && upper ==> index && hasIndexDir)
      && (index ==> hasIndexDir && upper)
    }

    /** What is wanted and the layers can do. */
    ghost predicate Has(a: Asks, d: Defaults, layers: Layers) reads this {
      && upper == a.upper && userXattr == a.userXattr
      && redirectDir == WantsRedirect(a, d) && redirectFollow == (Follows(a, d) && !a.userXattr)
      && metacopy == (WantsMetacopy(a, d) && (a.upper && layers.workdir ==> layers.xattr))
      && index == (WantsIndex(a, d) && a.upper && CanIndex(layers))
      && nfsExport == (WantsExport(a, d) && if a.upper then CanIndex(layers) else LowersCan(layers))
      && (readOnly <==>
            !a.upper || !layers.workdir || (WantsIndex(a, d) && BarIndexDir(layers) && !layers.indexDir))
    }

    ghost predicate Fresh(d: Defaults) reads this {
      Current() == Set(AskedFor([]), d) && !redirectDir && !redirectFollow && !hasWorkDir && !hasIndexDir && !readOnly
    }

    constructor (d: Defaults)
      ensures Fresh(d)
    {
      upper, lower, workdir := false, false, false;
      redirectDir, redirectFollow := false, false;
      redirectMode := if d.redirectDir then On else Off;
      index, nfsExport, metacopy := d.index, d.nfsExport, d.metacopy;
      isVolatile, userXattr, hasWorkDir, hasIndexDir, readOnly := false, false, false, false, false;
    }

    /** ovl_parse_redirect_mode */
    method ParseRedirectMode(d: Defaults) returns (ok: bool)
      requires !redirectDir && !redirectFollow
      modifies this`redirectDir, this`redirectFollow
      ensures ok == (!redirectMode.OtherText?)
      ensures redirectDir == (redirectMode == On)
      ensures redirectFollow == (redirectMode in {On, Follow} || (redirectMode == Off && d.alwaysFollow))
    {
      ok := true;
      if redirectMode == On {
        redirectDir := true;
        redirectFollow := true;
      } else if redirectMode == Follow {
        redirectFollow := true;
      } else if redirectMode == Off {
        if d.alwaysFollow {
          redirectFollow := true;
        }
      } else if redirectMode != NoFollow {
        ok := false;
      }
    }

    /** One turn of the loop of ovl_parse_opt. */
    method ReadOption(o: Opt) returns (ok: bool)
      modifies this`upper, this`lower, this`workdir, this`redirectMode, this`index, this`nfsExport, this`metacopy,
               this`isVolatile, this`userXattr
      ensures ok == !IsBad(o)
      ensures ok ==> Current() == Apply(old(Current()), o)
    {
      ok := true;
      match o {
        case UpperDir => upper := true;
        case LowerDir => lower := true;
        case WorkDir => workdir := true;
        case RedirectDir(mode) => redirectMode := mode;
        case Index(on) => index := on;
        case NfsExport(on) => nfsExport := on;
        case Metacopy(on) => metacopy := on;
        case Volatile => isVolatile := true;
        case UserXattr => userXattr := true;
        case OverrideCreds(wellFormed) => ok := wellFormed;
        case Neutral =>
        case Unknown => ok := false;
      }
    }

    /** The loop. */
    method ReadOptions(opts: seq<Opt>) returns (ok: bool)
      modifies this`upper, this`lower, this`workdir, this`redirectMode, this`index, this`nfsExport, this`metacopy,
               this`isVolatile, this`userXattr
      ensures ok <==> forall o | o in opts :: !IsBad(o)
      ensures ok ==> Current() == ApplyAll(old(Current()), opts)
    {
      var i := 0;
      ghost var start := Current();
      while i < |opts|
        invariant 0 <= i <= |opts|
        invariant forall o | o in opts[..i] :: !IsBad(o)
        invariant Current() == ApplyAll(start, opts[..i])
      {
        ok := ReadOption(opts[i]);
        if !ok {
          return;
        }
        assert opts[..i + 1][..i] == opts[..i];
        i := i + 1;
      }
      assert opts[..i] == opts;
      ok := true;
    }

    /** Metadata-only copy-up needs redirects. */
    method ResolveMetacopy(metacopyOpt: bool, redirectOpt: bool) returns (ok: bool)
      modifies this`metacopy, this`redirectDir, this`redirectFollow
      ensures ok <==> !(old(metacopy && !redirectDir) && metacopyOpt && redirectOpt)
      ensures ok ==> metacopy == old(metacopy && (redirectDir || !redirectOpt))
      ensures ok ==> redirectDir == old(redirectDir || (metacopy && !redirectOpt))
      ensures ok ==> redirectFollow == old(redirectFollow || (metacopy && !redirectDir && !redirectOpt))
    {
      ok := true;
      if metacopy && !redirectDir {
        if metacopyOpt && redirectOpt {
          return false;
        }
        if redirectOpt {
          metacopy := false;
        } else {
          redirectFollow, redirectDir := true, true;
        }
      }
    }

    /** Export needs the index. */
    method ResolveIndex(nfsOpt: bool, indexOpt: bool) returns (ok: bool)
      modifies this`nfsExport, this`index
      ensures ok <==> !(old(nfsExport && !index) && (upper || !redirectFollow) && nfsOpt && indexOpt)
      ensures ok ==> nfsExport == old(nfsExport && (index || ((upper || !redirectFollow) && !indexOpt)))
      ensures ok ==> index == (old(index) || nfsExport)
    {
      ok := true;
      if nfsExport && !index {
        if !upper && redirectFollow {
          nfsExport := false;
        } else if nfsOpt && indexOpt {
          return false;
        } else if indexOpt {
          nfsExport := false;
        } else {
          index := true;
        }
      }
    }

    /** Export excludes metadata-only copy-up. */
    method ResolveExport(nfsOpt: bool, metacopyOpt: bool) returns (ok: bool)
      modifies this`nfsExport, this`metacopy
      ensures ok <==> !(old(nfsExport && metacopy) && nfsOpt && metacopyOpt)
      ensures ok ==> nfsExport == old(nfsExport && !(metacopy && metacopyOpt))
      ensures ok ==> metacopy == old(metacopy && !(nfsExport && !metacopyOpt))
    {
      ok := true;
      if nfsExport && metacopy {
        if nfsOpt && metacopyOpt {
          return false;
        }
        if metacopyOpt {
          nfsExport := false;
        } else {
          metacopy := false;
        }
      }
    }

    /** The attributes of an unprivileged mount carry neither redirects nor metacopy. */
    method ResolveUserXattr(metacopyOpt: bool, redirectOpt: bool) returns (ok: bool)
      modifies this`metacopy, this`redirectDir, this`redirectFollow
      ensures ok <==> !(userXattr && (old(redirectFollow && redirectOpt) || old(metacopy && metacopyOpt)))
      ensures ok ==> redirectDir == (old(redirectDir) && !userXattr)
      ensures ok ==> redirectFollow == (old(redirectFollow) && !userXattr)
      ensures ok ==> metacopy == (old(metacopy) && !userXattr)
    {
      ok := true;
      if userXattr {
        if redirectFollow && redirectOpt {
          return false;
        }
        if metacopy && metacopyOpt {
          return false;
        }
        redirectDir, redirectFollow := false, false;
        metacopy := false;
      }
    }

    /** What is parsed. */
    ghost predicate Parsed(a: Asks, d: Defaults) reads this {
      && upper == a.upper && lower == a.lower && userXattr == a.userXattr
      && workdir == (a.upper && a.workdir) && isVolatile == (a.upper && a.isVolatile)
      && redirectDir == WantsRedirect(a, d) && redirectFollow == (Follows(a, d) && !a.userXattr)
      && metacopy == WantsMetacopy(a, d) && nfsExport == WantsExport(a, d) && index == WantsIndex(a, d)
    }

    /** What is of no use without an upper layer is dropped, and the redirect mode read. */
    method ResolveMode(a: Asks, d: Defaults) returns (ok: bool, indexOpt: bool)
      requires Current() == Set(a, d) && !redirectDir && !redirectFollow
      modifies this`workdir, this`index, this`isVolatile, this`redirectDir, this`redirectFollow
      ensures ok <==> !Mode(a, d).OtherText?
      ensures workdir == (a.upper && a.workdir) && isVolatile == (a.upper && a.isVolatile)
      ensures index == (a.upper && Given(a.index, d.index))
      ensures indexOpt == (a.index.Some? && (a.upper || a.index == Some(false)))
      ensures ok ==> redirectDir == ModeMakes(a, d) && redirectFollow == ModeFollows(a, d)
    {
      indexOpt := a.index.Some?;
      if !upper {
        workdir := false;
        if index && indexOpt {
          indexOpt := false;
        }
        index := false;
        isVolatile := false;
      }
      ok := ParseRedirectMode(d);
      if ok && !upper && redirectFollow {
        redirectDir := true;
      }
    }

    /** Redirects, and metadata-only copy-up as far as it depends on them. */
    method ResolveRedirects(a: Asks, d: Defaults) returns (ok: bool, indexOpt: bool)
      requires Current() == Set(a, d) && !redirectDir && !redirectFollow
      modifies this`workdir, this`index, this`isVolatile, this`redirectDir, this`redirectFollow, this`metacopy
      ensures workdir == (a.upper && a.workdir) && isVolatile == (a.upper && a.isVolatile)
      ensures index == (a.upper && Given(a.index, d.index))
      ensures indexOpt == (a.index.Some? && (a.upper || a.index == Some(false)))
      ensures ok <==> !RedirectConflict(a, d)
      ensures ok ==> redirectDir == (ModeMakes(a, d) || MetacopyTurnsOn(a, d)) && redirectFollow == Follows(a, d)
      ensures ok ==> metacopy == MetacopyStays(a, d) && (a.metacopy == Some(true) ==> metacopy)
      ensures upper == a.upper && lower == a.lower && userXattr == a.userXattr
      ensures nfsExport == Given(a.nfsExport, d.nfsExport)
    {
      ok, indexOpt := ResolveMode(a, d);
      if ok {
        ok := ResolveMetacopy(a.metacopy.Some?, a.redirect.Some?);
      }
    }

    /** The index, export, and metadata-only copy-up as far as export excludes it. */
    method ResolveIndexAndExport(a: Asks, d: Defaults, indexOpt: bool) returns (ok: bool)
      requires upper == a.upper && redirectFollow == Follows(a, d) && nfsExport == Given(a.nfsExport, d.nfsExport)
      requires index == (a.upper && Given(a.index, d.index))
      requires indexOpt == (a.index.Some? && (a.upper || a.index == Some(false)))
      requires metacopy == MetacopyStays(a, d) && (a.metacopy == Some(true) ==> metacopy)
      modifies this`index, this`nfsExport, this`metacopy
      ensures ok <==> !ExportConflict(a, d)
      ensures ok ==> index == WantsIndex(a, d) && nfsExport == WantsExport(a, d)
      ensures ok ==> metacopy == (old(metacopy) && (CanExport(a, d) ==> a.metacopy.Some?))
    {
      ok := ResolveIndex(a.nfsExport.Some?, indexOpt);
      if !ok {
        return;
      }
      assert nfsExport == CanExport(a, d);
      ok := ResolveExport(a.nfsExport.Some?, a.metacopy.Some?);
    }

    method ResolveAttributes(a: Asks, d: Defaults) returns (ok: bool)
      requires !RedirectConflict(a, d) && !ExportConflict(a, d) && userXattr == a.userXattr
      requires redirectDir == (ModeMakes(a, d) || MetacopyTurnsOn(a, d)) && redirectFollow == Follows(a, d)
      requires metacopy == (MetacopyStays(a, d) && (CanExport(a, d) ==> a.metacopy.Some?))
      modifies this`metacopy, this`redirectDir, this`redirectFollow
      ensures ok <==> !XattrConflict(a, d)
      ensures ok ==> redirectDir == WantsRedirect(a, d) && redirectFollow == (Follows(a, d) && !a.userXattr)
      ensures ok ==> metacopy == WantsMetacopy(a, d)
    {
      ResolvedXattr(a, d, redirectFollow, metacopy);
      ok := ResolveUserXattr(a.metacopy.Some?, a.redirect.Some?);
    }

    method ResolveFeatures(a: Asks, d: Defaults, indexOpt: bool) returns (ok: bool)
      requires !RedirectConflict(a, d) && upper == a.upper && userXattr == a.userXattr
      requires redirectDir == (ModeMakes(a, d) || MetacopyTurnsOn(a, d)) && redirectFollow == Follows(a, d)
      requires nfsExport == Given(a.nfsExport, d.nfsExport) && index == (a.upper && Given(a.index, d.index))
      requires indexOpt == (a.index.Some? && (a.upper || a.index == Some(false)))
      requires metacopy == MetacopyStays(a, d) && (a.metacopy == Some(true) ==> metacopy)
      modifies this`index, this`redirectDir, this`redirectFollow, this`metacopy, this`nfsExport
      ensures ok <==> !ExportConflict(a, d) && !XattrConflict(a, d)
      ensures ok ==> redirectDir == WantsRedirect(a, d) && redirectFollow == (Follows(a, d) && !a.userXattr)
      ensures ok ==> metacopy == WantsMetacopy(a, d)
      ensures ok ==> index == WantsIndex(a, d) && nfsExport == WantsExport(a, d)
    {
      ok := ResolveIndexAndExport(a, d, indexOpt);
      if ok {
        ok := ResolveAttributes(a, d);
      }
    }

    /** The rest of ovl_parse_opt: what depends on what. */
    method Resolve(a: Asks, d: Defaults) returns (ok: bool)
      requires Current() == Set(a, d) && !redirectDir && !redirectFollow
      modifies this`workdir, this`index, this`isVolatile, this`redirectDir, this`redirectFollow, this`metacopy,
               this`nfsExport
      ensures ok <==> !Conflict(a, d)
      ensures ok ==> Parsed(a, d)
    {
      var indexOpt;
      ok, indexOpt := ResolveRedirects(a, d);
      if ok {
        ok := ResolveFeatures(a, d, indexOpt);
      }
    }

    /** What the text given for redirects makes of them. */
    ghost predicate RedirectsAre(mode: RedirectMode, d: Defaults) reads this {
      && redirectFollow == (!userXattr && (mode == On || mode == Follow || (mode == Off && d.alwaysFollow)))
      && redirectDir == (!userXattr && (mode == On || (!upper && redirectFollow)))
    }

    /** What the parameters of the module make of the features. */
    ghost predicate DefaultsHold(d: Defaults) reads this {
      && redirectFollow == (d.redirectDir || d.alwaysFollow || d.metacopy)
      && redirectDir == (d.redirectDir || d.metacopy || (!upper && d.alwaysFollow))
      && nfsExport == (d.nfsExport && (upper || !redirectFollow)) && metacopy == (d.metacopy && !nfsExport)
      && index == (if upper then d.index || d.nfsExport else nfsExport)
    }

    /** ovl_parse_opt.  What an option asks for is had or the mount refused, with one exception:
        export is given up, without a word of refusal, exactly where there is no upper layer and
        redirects are followed. */
    method ParseOpt(opts: seq<Opt>, d: Defaults) returns (ok: bool)
      requires Fresh(d)
      modifies this`upper, this`lower, this`workdir, this`redirectMode, this`index, this`nfsExport, this`metacopy,
               this`isVolatile, this`userXattr, this`redirectDir, this`redirectFollow
      ensures ok <==> Accepted(opts, d)
      ensures ok ==> Parsed(AskedFor(opts), d)
      ensures ok && Asked(opts, OfMetacopy).Some? ==> metacopy == Asked(opts, OfMetacopy).value
      ensures ok && Asked(opts, OfRedirect) == Some(On) ==> redirectDir
      ensures ok && Asked(opts, OfRedirect).Some? ==> RedirectsAre(Asked(opts, OfRedirect).value, d)
      ensures ok && userXattr ==> !redirectFollow && !redirectDir && !metacopy
      ensures ok && upper && Asked(opts, OfIndex).Some? ==> index == Asked(opts, OfIndex).value
      ensures ok && Asked(opts, OfNfsExport) == Some(false) ==> !nfsExport
      ensures ok && Asked(opts, OfNfsExport) == Some(true) ==>
          (nfsExport <==> UpperDir in opts || !Follows(AskedFor(opts), d))
      ensures NothingAsked(opts) ==> ok && DefaultsHold(d)
    {
      if NothingAsked(opts) {
        DefaultsDecide(opts, d);
      }
      ok := ReadOptions(opts);
      LastCounts(d, opts);
      if ok {
        ok := Resolve(AskedFor(opts), d);
      }
      if ok {
        AskedIsHad(AskedFor(opts), d);
      }
    }

    /** ovl_make_workdir */
    method MakeWorkdir(layers: Layers)
      modifies this`index, this`metacopy, this`nfsExport, this`hasWorkDir
      ensures hasWorkDir == layers.workdir
      ensures index == (old(index) && (layers.workdir ==> layers.xattr && layers.upperHandles))
      ensures nfsExport == (old(nfsExport) && (layers.workdir ==> index))
      ensures metacopy == (old(metacopy) && (layers.workdir ==> layers.xattr))
    {
      hasWorkDir := layers.workdir;
      if !layers.workdir {
        return;
      }
      if !layers.xattr {
        if index || metacopy {
          index := false;
          metacopy := false;
        }
      }
      if index && !layers.upperHandles {
        index := false;
      }
      if nfsExport && !index {
        nfsExport := false;
      }
    }

    /** ovl_lower_dir, for all lower layers: one without file handles takes away the index and
        export, if either is on and of use. */
    method LookAtHandles(handles: seq<bool>)
      modifies this`index, this`nfsExport
      ensures var stays := old(nfsExport || (index && upper)) ==> AllTo(handles, |handles|);
              index == (old(index) && stays) && nfsExport == (old(nfsExport) && stays)
    {
      var i := 0;
      while i < |handles|
        invariant 0 <= i <= |handles|
        invariant var stays := old(nfsExport || (index && upper)) ==> AllTo(handles, i);
                  index == (old(index) && stays) && nfsExport == (old(nfsExport) && stays)
      {
        if (nfsExport || (index && upper)) && !handles[i] {
          index, nfsExport := false, false;
        }
        i := i + 1;
      }
    }

    /** ovl_get_fsid, for all lower layers: so does one whose uuid is of no use. */
    method LookAtUuids(uuidOk: seq<bool>)
      modifies this`index, this`nfsExport
      ensures index == (old(index) && AllTo(uuidOk, |uuidOk|))
      ensures nfsExport == (old(nfsExport) && AllTo(uuidOk, |uuidOk|))
    {
      var i := 0;
      while i < |uuidOk|
        invariant 0 <= i <= |uuidOk|
        invariant index == (old(index) && AllTo(uuidOk, i)) && nfsExport == (old(nfsExport) && AllTo(uuidOk, i))
      {
        if !uuidOk[i] {
          if index || nfsExport {
            index, nfsExport := false, false;
          }
        }
        i := i + 1;
      }
    }

    /** The layers are looked at; what they cannot do is given up. */
    method LookAtLayers(layers: Layers)
      requires nfsExport ==> index
      modifies this`index, this`metacopy, this`nfsExport, this`hasWorkDir, this`readOnly
      ensures metacopy == (old(metacopy) && (upper && layers.workdir ==> layers.xattr))
      ensures upper ==> hasWorkDir == layers.workdir && readOnly == (old(readOnly) || !layers.workdir)
      ensures !upper ==> hasWorkDir == old(hasWorkDir) && readOnly
      ensures upper && layers.workdir ==> index == (old(index) && BarIndexDir(layers))
      ensures nfsExport == (old(nfsExport) && LowersCan(layers) &&
                            (upper && layers.workdir ==> layers.xattr && layers.upperHandles))
    {
      if upper {
        MakeWorkdir(layers);
        if !hasWorkDir {
          readOnly := true;
        }
      }
      LookAtHandles(layers.lowerHandles);
      LookAtUuids(layers.uuidOk);
      if !upper {
        readOnly := true;
      }
    }

    /** The index directory, without which there is no index. */
    method GetIndexDir(layers: Layers)
      requires !hasIndexDir
      modifies this`index, this`nfsExport, this`hasIndexDir, this`readOnly
      ensures hasIndexDir == (upper && hasWorkDir && old(index) && layers.indexDir) && index == hasIndexDir
      ensures nfsExport == (old(nfsExport) && (upper ==> hasIndexDir))
      ensures readOnly == (old(readOnly) || (upper && hasWorkDir && old(index) && !layers.indexDir))
    {
      if upper && hasWorkDir && index {
        hasIndexDir := layers.indexDir;
        if !hasIndexDir {
          readOnly := true;
        }
      }
      if !hasIndexDir {
        index := false;
        if upper && nfsExport {
          nfsExport := false;
        }
      }
    }

    /** What was wanted and the layers can do. */
    method FitLayers(layers: Layers)
      requires (nfsExport ==> index) && !hasWorkDir && !hasIndexDir && !readOnly
      modifies this`index, this`metacopy, this`nfsExport, this`hasWorkDir, this`hasIndexDir, this`readOnly
      ensures metacopy == (old(metacopy) && (upper && layers.workdir ==> layers.xattr))
      ensures index == hasIndexDir == (old(index) && upper && CanIndex(layers))
      ensures nfsExport == (old(nfsExport) && if upper then CanIndex(layers) else LowersCan(layers))
      ensures readOnly == (!upper || !layers.workdir || (old(index) && BarIndexDir(layers) && !layers.indexDir))
    {
      LookAtLayers(layers);
      GetIndexDir(layers);
    }

    /** ovl_fill_super, as far as features go.  What the mount has is what the options want and
        the layers can do, and goes together. */
    method FillSuper(opts: seq<Opt>, d: Defaults, layers: Layers) returns (ok: bool)
      requires Fresh(d)
      modifies this
      ensures var a := AskedFor(opts);
              && (ok <==> Accepted(opts, d) && a.lower && (a.upper ==> a.workdir))
              && (ok ==> Consistent() && Has(a, d, layers))
    {
      hide RedirectsAre, DefaultsHold;
      ok := ParseOpt(opts, d);
      if !ok {
        return;
      }
      WantedTogether(AskedFor(opts), d);
      if !lower {
        return false;
      }
      if upper && !workdir {
        return false;
      }
      FitLayers(layers);
      // The fallback for a mount with both never happens.
      if metacopy && nfsExport {
        assert false;
      }
    }
  }
}
