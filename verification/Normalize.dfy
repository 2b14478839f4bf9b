/** Normalisation of run requests: defaults filled in, everything checked, the working
    directory resolved. */
module Normalize {
  import opened Types
  import opened IndexKey
  import opened Paths

  datatype Limits = Limits(
    defaultTimeoutSec: int,
    maxTimeoutSec: int,
    defaultWaitSec: int,
    maxWaitSec: int,
    defaultKillGraceSec: int,
    maxCmdBytes: int,
    maxStdinBytes: int,
    defaultStdoutBytes: int,
    defaultStderrBytes: int,
    maxStdoutBytes: int,
    maxStderrBytes: int,
    defaultStdoutLogBytes: int,
    defaultStderrLogBytes: int,
    maxStdoutLogBytes: int,
    maxStderrLogBytes: int)

  datatype RequestConfig = RequestConfig(
    limits: Limits,
    allowAnyCwdForRoot: bool,
    allowedCwdPrefixes: seq<string>,
    envAllow: seq<string>,
    envDeny: seq<string>)

  /** Why a request is refused, in the order of the checks. */
  datatype Fault =
    | RootConflict
    | BadPrivilege
    | BadMode
    | NoCommand
    | CommandTooLarge
    | StdinTooLarge
    | TimeoutOutOfRange
    | WaitOutOfRange
    | KillGraceOutOfRange
    | StdoutOutOfRange
    | StderrOutOfRange
    | StdoutLogOutOfRange
    | StderrLogOutOfRange
    | CwdNotAbsolute
    | CwdMissing
    | CwdOutside
    | BadEnv
    | BadLockKey
    | BadIdempotencyKey

  function Order(f: Fault): nat {
    match f
    case RootConflict => 0
    case BadPrivilege => 1
    case BadMode => 2
    case NoCommand => 3
    case CommandTooLarge => 4
    case StdinTooLarge => 5
    case TimeoutOutOfRange => 6
    case WaitOutOfRange => 7
    case KillGraceOutOfRange => 8
    case StdoutOutOfRange => 9
    case StderrOutOfRange => 10
    case StdoutLogOutOfRange => 11
    case StderrLogOutOfRange => 12
    case CwdNotAbsolute => 13
    case CwdMissing => 14
    case CwdOutside => 15
    case BadEnv => 16
    case BadLockKey => 17
    case BadIdempotencyKey => 18
  }

  /** Sizes are counted in bytes of UTF-8. */
  function ByteLen(s: string): nat {
    if s == "" then 0
    else
      var c := s[0] as int;
      (if c < 0x80 then 1 else if c < 0x800 then 2 else if c < 0x1_0000 then 3 else 4) + ByteLen(s[1..])
  }

  function TotalBytes(argv: seq<string>): nat {
    if argv == [] then 0 else TotalBytes(argv[..|argv| - 1]) + ByteLen(argv[|argv| - 1])
  }

  predicate IsSpace(c: char) {
    var n := c as int;
    || 9 <= n <= 13 || n == 0x20 || n == 0x85 || n == 0xA0 || n == 0x1680 || 0x2000 <= n <= 0x200A
    || n == 0x2028 || n == 0x2029 || n == 0x202F || n == 0x205F || n == 0x3000
  }

  predicate Blank(s: string) {
    forall i :: 0 <= i < |s| ==> IsSpace(s[i])
  }

  predicate ValidEnvKey(k: string) {
    && k != "" && ('A' <= k[0] <= 'Z' || k[0] == '_')
    && forall i :: 0 <= i < |k| ==> 'A' <= k[i] <= 'Z' || '0' <= k[i] <= '9' || k[i] == '_'
  }

  predicate ValidEnvVar(cfg: RequestConfig, k: string, v: string) {
    ValidEnvKey(k) && k !in cfg.envDeny && (cfg.envAllow == [] || k in cfg.envAllow) && ByteLen(v) <= 4096
  }

  predicate KeyOrEmpty(k: string) {
    k == "" || ValidControlKey(k)
  }

  function Or(n: int, default: int): int {
    if n == 0 then default else n
  }

  function PrivilegeOf(req: RunRequest): Privilege {
    if req.privilege != Unset then req.privilege else if req.root == Some(true) then Root else User
  }

  /** The directory a request starts from if it names none. */
  function StartOf(cwd: string, privilege: Privilege): (r: string)
    ensures r != ""
  {
    if cwd != "" then cwd else if privilege == Root then "/" else "/tmp"
  }

  /** The request with every default filled in. */
  function Filled(req: RunRequest, cfg: RequestConfig): RunRequest {
    var l, privilege := cfg.limits, PrivilegeOf(req);
    req.(privilege := privilege,
         mode := if req.mode.UnsetMode? then Shell else req.mode,
         timeoutSec := Or(req.timeoutSec, l.defaultTimeoutSec),
         waitSec := if req.waitSecSet then req.waitSec else Or(req.waitSec, l.defaultWaitSec),
         killGraceSec := Or(req.killGraceSec, l.defaultKillGraceSec),
         maxStdoutBytes := Or(req.maxStdoutBytes, l.defaultStdoutBytes),
         maxStderrBytes := Or(req.maxStderrBytes, l.defaultStderrBytes),
         maxStdoutLogBytes := Or(req.maxStdoutLogBytes, l.defaultStdoutLogBytes),
         maxStderrLogBytes := Or(req.maxStderrLogBytes, l.defaultStderrLogBytes),
         cwd := StartOf(req.cwd, privilege))
  }

  /** The allowed prefix that stands for `p`: resolved if it exists, else just cleaned. */
  function PrefixOf(resolve: string -> Option<string>, p: string): string {
    match resolve(Clean(p))
    case Some(q) => q
    case None => Clean(p)
  }

  predicate Inside(resolve: string -> Option<string>, cfg: RequestConfig, cwd: string) {
    exists i :: 0 <= i < |cfg.allowedCwdPrefixes| && PathHasPrefix(cwd, PrefixOf(resolve, cfg.allowedCwdPrefixes[i]))
  }

  predicate Restricted(privilege: Privilege, cfg: RequestConfig) {
    privilege != Root || !cfg.allowAnyCwdForRoot
  }

  predicate CwdHas(fault: Fault, resolve: string -> Option<string>, cfg: RequestConfig, cwd: string, privilege: Privilege) {
    var resolved := resolve(Clean(cwd));
    match fault
    case CwdNotAbsolute => !IsAbs(cwd)
    case CwdMissing => IsAbs(cwd) && resolved.None?
    case CwdOutside => IsAbs(cwd) && resolved.Some? && Restricted(privilege, cfg) && !Inside(resolve, cfg, resolved.value)
    case _ => false
  }

  predicate SizeHas(fault: Fault, l: Limits, f: RunRequest) {
    match fault
    case TimeoutOutOfRange => !(1 <= f.timeoutSec <= l.maxTimeoutSec)
    case WaitOutOfRange => !(0 <= f.waitSec <= l.maxWaitSec)
    case KillGraceOutOfRange => !(1 <= f.killGraceSec <= 30)
    case StdoutOutOfRange => !(0 <= f.maxStdoutBytes <= l.maxStdoutBytes)
    case StderrOutOfRange => !(0 <= f.maxStderrBytes <= l.maxStderrBytes)
    case StdoutLogOutOfRange => !(f.maxStdoutBytes <= f.maxStdoutLogBytes <= l.maxStdoutLogBytes)
    case StderrLogOutOfRange => !(f.maxStderrBytes <= f.maxStderrLogBytes <= l.maxStderrLogBytes)
    case _ => false
  }

  predicate CommandHas(fault: Fault, l: Limits, f: RunRequest) {
    match fault
    case RootConflict => f.root.Some? && (if f.root.value then f.privilege != Root else f.privilege == Root)
    case BadPrivilege => f.privilege != User && f.privilege != Root
    case BadMode => f.mode != Shell && f.mode != ArgvMode
    case NoCommand => if f.mode == Shell then Blank(f.cmd) else f.argv == [] || f.argv[0] == ""
    case CommandTooLarge => (if f.mode == Shell then ByteLen(f.cmd) else TotalBytes(f.argv)) > l.maxCmdBytes
    case StdinTooLarge => ByteLen(f.stdin) > l.maxStdinBytes
    case _ => false
  }

  predicate KeysHave(fault: Fault, cfg: RequestConfig, f: RunRequest) {
    match fault
    case BadEnv => exists k :: k in f.env && !ValidEnvVar(cfg, k, f.env[k])
    case BadLockKey => !KeyOrEmpty(f.lockKey)
    case BadIdempotencyKey => !KeyOrEmpty(f.idempotencyKey)
    case _ => false
  }

  /** Whether the request, with its defaults, has this fault. */
  predicate Has(fault: Fault, req: RunRequest, cfg: RequestConfig, resolve: string -> Option<string>) {
    var f := Filled(req, cfg);
    || CommandHas(fault, cfg.limits, f)
    || SizeHas(fault, cfg.limits, f)
    || CwdHas(fault, resolve, cfg, f.cwd, f.privilege)
    || KeysHave(fault, cfg, f)
  }

  ghost predicate Acceptable(req: RunRequest, cfg: RequestConfig, resolve: string -> Option<string>) {
    forall fault :: !Has(fault, req, cfg, resolve)
  }

  function Normal(req: RunRequest, cfg: RequestConfig, resolve: string -> Option<string>): RunRequest {
    var f := Filled(req, cfg);
    match resolve(Clean(f.cwd))
    case Some(cwd) => f.(cwd := cwd)
    case None => f
  }

  /** What an accepted request keeps to, in its own terms. */
  ghost predicate Fits(req: RunRequest, cfg: RequestConfig, resolve: string -> Option<string>) {
    FitsCommand(req, cfg.limits) && FitsSizes(req, cfg.limits) && FitsCwd(req, cfg, resolve) && FitsKeys(req, cfg)
  }

  ghost predicate FitsCommand(req: RunRequest, l: Limits) {
    && req.privilege in {Unset, User, Root}
    && (req.root == Some(true) ==> req.privilege != User)
    && (req.root == Some(false) ==> req.privilege != Root)
    && (match req.mode
        case UnsetMode => (exists i :: 0 <= i < |req.cmd| && !IsSpace(req.cmd[i])) && ByteLen(req.cmd) <= l.maxCmdBytes
        case Shell => (exists i :: 0 <= i < |req.cmd| && !IsSpace(req.cmd[i])) && ByteLen(req.cmd) <= l.maxCmdBytes
        case ArgvMode => req.argv != [] && req.argv[0] != "" && TotalBytes(req.argv) <= l.maxCmdBytes
        case OtherMode(_) => false)
    && ByteLen(req.stdin) <= l.maxStdinBytes
  }

  predicate FitsSizes(req: RunRequest, l: Limits) {
    var stdout := if req.maxStdoutBytes == 0 then l.defaultStdoutBytes else req.maxStdoutBytes;
    var stderr := if req.maxStderrBytes == 0 then l.defaultStderrBytes else req.maxStderrBytes;
    && 1 <= (if req.timeoutSec == 0 then l.defaultTimeoutSec else req.timeoutSec) <= l.maxTimeoutSec
    && 0 <= (if req.waitSec == 0 && !req.waitSecSet then l.defaultWaitSec else req.waitSec) <= l.maxWaitSec
    && 1 <= (if req.killGraceSec == 0 then l.defaultKillGraceSec else req.killGraceSec) <= 30
    && 0 <= stdout <= l.maxStdoutBytes && 0 <= stderr <= l.maxStderrBytes
    && stdout <= (if req.maxStdoutLogBytes == 0 then l.defaultStdoutLogBytes else req.maxStdoutLogBytes) <= l.maxStdoutLogBytes
    && stderr <= (if req.maxStderrLogBytes == 0 then l.defaultStderrLogBytes else req.maxStderrLogBytes) <= l.maxStderrLogBytes
  }

  predicate FitsCwd(req: RunRequest, cfg: RequestConfig, resolve: string -> Option<string>) {
    var root := req.privilege == Root || req.root == Some(true);
    var start := if req.cwd != "" then req.cwd else if root then "/" else "/tmp";
    && start[0] == '/' && resolve(Clean(start)).Some?
    && ((root && cfg.allowAnyCwdForRoot)
        || exists i :: 0 <= i < |cfg.allowedCwdPrefixes| &&
             var prefix := Clean(cfg.allowedCwdPrefixes[i]);
             PathHasPrefix(resolve(Clean(start)).value, if resolve(prefix).Some? then resolve(prefix).value else prefix))
  }

  predicate FitsKeys(req: RunRequest, cfg: RequestConfig) {
    && (forall k :: k in req.env ==>
          ValidEnvKey(k) && k !in cfg.envDeny && (cfg.envAllow == [] || k in cfg.envAllow) && ByteLen(req.env[k]) <= 4096)
    && (req.lockKey == "" || ValidControlKey(req.lockKey))
    && (req.idempotencyKey == "" || ValidControlKey(req.idempotencyKey))
  }

  lemma FitsInStages(req: RunRequest, cfg: RequestConfig, resolve: string -> Option<string>)
    ensures var f, l := Filled(req, cfg), cfg.limits;
      && ((forall e :: !CommandHas(e, l, f)) <==> FitsCommand(req, l))
      && ((forall e :: !SizeHas(e, l, f)) <==> FitsSizes(req, l))
      && (FitsCommand(req, l) ==>
            ((forall e :: !CwdHas(e, resolve, cfg, f.cwd, f.privilege)) <==> FitsCwd(req, cfg, resolve)))
      && ((forall e :: !KeysHave(e, cfg, f)) <==> FitsKeys(req, cfg))
  {
    CommandFits(req, cfg);
    SizesFit(req, cfg);
    if FitsCommand(req, cfg.limits) {
      CwdFits(req, cfg, resolve);
    }
    KeysFit(req, cfg);
    hide *;
  }

  lemma CommandFits(req: RunRequest, cfg: RequestConfig)
    ensures (forall e :: !CommandHas(e, cfg.limits, Filled(req, cfg))) <==> FitsCommand(req, cfg.limits)
  {
    var f, l := Filled(req, cfg), cfg.limits;
    hide ByteLen, TotalBytes, IsSpace, StartOf, Or;
    if forall e :: !CommandHas(e, l, f) {
      assert !CommandHas(RootConflict, l, f) && !CommandHas(BadPrivilege, l, f) && !CommandHas(BadMode, l, f);
      assert !CommandHas(NoCommand, l, f) && !CommandHas(CommandTooLarge, l, f) && !CommandHas(StdinTooLarge, l, f);
    }
  }

  lemma SizesFit(req: RunRequest, cfg: RequestConfig)
    ensures (forall e :: !SizeHas(e, cfg.limits, Filled(req, cfg))) <==> FitsSizes(req, cfg.limits)
  {
    var f, l := Filled(req, cfg), cfg.limits;
    if forall e :: !SizeHas(e, l, f) {
      assert !SizeHas(TimeoutOutOfRange, l, f) && !SizeHas(WaitOutOfRange, l, f) && !SizeHas(KillGraceOutOfRange, l, f);
      assert !SizeHas(StdoutOutOfRange, l, f) && !SizeHas(StderrOutOfRange, l, f);
      assert !SizeHas(StdoutLogOutOfRange, l, f) && !SizeHas(StderrLogOutOfRange, l, f);
    }
  }

  lemma CwdFits(req: RunRequest, cfg: RequestConfig, resolve: string -> Option<string>)
    requires FitsCommand(req, cfg.limits)
    ensures var f := Filled(req, cfg);
      (forall e :: !CwdHas(e, resolve, cfg, f.cwd, f.privilege)) <==> FitsCwd(req, cfg, resolve)
  {
    var f := Filled(req, cfg);
    hide Clean, ByteLen, TotalBytes, IsSpace, Or, PathHasPrefix;
    if forall e :: !CwdHas(e, resolve, cfg, f.cwd, f.privilege) {
      assert !CwdHas(CwdNotAbsolute, resolve, cfg, f.cwd, f.privilege);
      assert !CwdHas(CwdMissing, resolve, cfg, f.cwd, f.privilege);
      assert !CwdHas(CwdOutside, resolve, cfg, f.cwd, f.privilege);
    }
  }

  lemma KeysFit(req: RunRequest, cfg: RequestConfig)
    ensures (forall e :: !KeysHave(e, cfg, Filled(req, cfg))) <==> FitsKeys(req, cfg)
  {
    var f := Filled(req, cfg);
    hide ByteLen, ValidEnvKey, ValidControlKey, StartOf, Or;
    if forall e :: !KeysHave(e, cfg, f) {
      assert !KeysHave(BadEnv, cfg, f) && !KeysHave(BadLockKey, cfg, f) && !KeysHave(BadIdempotencyKey, cfg, f);
      forall k | k in req.env ensures ValidEnvVar(cfg, k, req.env[k]) {
        assert k in f.env && f.env[k] == req.env[k];
      }
    }
  }

  /** A request without a fault keeps to these rules, and one that keeps to them has none. */
  lemma AcceptableIffFits(req: RunRequest, cfg: RequestConfig, resolve: string -> Option<string>)
    ensures Acceptable(req, cfg, resolve) <==> Fits(req, cfg, resolve)
  {
    FitsInStages(req, cfg, resolve);
    hide CommandHas, SizeHas, CwdHas, KeysHave, Filled, FitsCommand, FitsSizes, FitsCwd, FitsKeys;
    var f, l := Filled(req, cfg), cfg.limits;
    if Acceptable(req, cfg, resolve) {
      forall e
        ensures !CommandHas(e, l, f) && !SizeHas(e, l, f) && !CwdHas(e, resolve, cfg, f.cwd, f.privilege) && !KeysHave(e, cfg, f)
      {
        assert !Has(e, req, cfg, resolve);
      }
    }
  }

  /** What normalising makes of an accepted request: the defaults that are missing, the resolved
      directory, and nothing else. */
  ghost predicate Completes(given: RunRequest, req: RunRequest, l: Limits, resolve: string -> Option<string>) {
    && req.privilege == (if given.privilege == Root || given.root == Some(true) then Root else User)
    && req.mode == (if given.mode.UnsetMode? then Shell else given.mode)
    && req.timeoutSec == (if given.timeoutSec == 0 then l.defaultTimeoutSec else given.timeoutSec)
    && req.waitSec == (if given.waitSec == 0 && !given.waitSecSet then l.defaultWaitSec else given.waitSec)
    && req.killGraceSec == (if given.killGraceSec == 0 then l.defaultKillGraceSec else given.killGraceSec)
    && req.maxStdoutBytes == (if given.maxStdoutBytes == 0 then l.defaultStdoutBytes else given.maxStdoutBytes)
    && req.maxStderrBytes == (if given.maxStderrBytes == 0 then l.defaultStderrBytes else given.maxStderrBytes)
    && req.maxStdoutLogBytes == (if given.maxStdoutLogBytes == 0 then l.defaultStdoutLogBytes else given.maxStdoutLogBytes)
    && req.maxStderrLogBytes == (if given.maxStderrLogBytes == 0 then l.defaultStderrLogBytes else given.maxStderrLogBytes)
    && resolve(Clean(if given.cwd != "" then given.cwd else if req.privilege == Root then "/" else "/tmp")) == Some(req.cwd)
    && req == given.(privilege := req.privilege, mode := req.mode, timeoutSec := req.timeoutSec, waitSec := req.waitSec,
                     killGraceSec := req.killGraceSec, maxStdoutBytes := req.maxStdoutBytes, maxStderrBytes := req.maxStderrBytes,
                     maxStdoutLogBytes := req.maxStdoutLogBytes, maxStderrLogBytes := req.maxStderrLogBytes, cwd := req.cwd)
  }

  lemma NormalCompletes(req: RunRequest, cfg: RequestConfig, resolve: string -> Option<string>)
    requires Acceptable(req, cfg, resolve)
    ensures Completes(req, Normal(req, cfg, resolve), cfg.limits, resolve)
    ensures Normal(req, cfg, resolve).privilege == Root <==> req.privilege == Root || req.root == Some(true)
    ensures Normal(req, cfg, resolve).privilege in {Root, User}
  {
    hide Clean, KeysHave, SizeHas, ByteLen, Blank, Inside;
    assert !Has(CwdMissing, req, cfg, resolve) && !Has(CwdNotAbsolute, req, cfg, resolve);
    assert !Has(BadPrivilege, req, cfg, resolve) && !Has(RootConflict, req, cfg, resolve);
  }

  datatype Normalized = Ok(req: RunRequest) | Rejected(fault: Fault)

  method TotalArgv(argv: seq<string>) returns (total: nat)
    ensures total == TotalBytes(argv)
  {
    total := 0;
    for i := 0 to |argv|
      invariant total == TotalBytes(argv[..i])
    {
      assert argv[..i + 1][..i] == argv[..i];
      total := total + ByteLen(argv[i]);
    }
    assert argv[..|argv|] == argv;
  }

  method ValidateEnv(env: map<string, string>, cfg: RequestConfig) returns (ok: bool)
    ensures ok <==> forall k :: k in env ==> ValidEnvVar(cfg, k, env[k])
    ensures ok <==> forall k :: k in env ==>
      ValidEnvKey(k) && k !in cfg.envDeny && (cfg.envAllow == [] || k in cfg.envAllow) && ByteLen(env[k]) <= 4096
  {
    var todo := env.Keys;
    while todo != {}
      invariant todo <= env.Keys && forall k :: k in env && k !in todo ==> ValidEnvVar(cfg, k, env[k])
      decreases |todo|
    {
      var k :| k in todo;
      if !ValidEnvVar(cfg, k, env[k]) {
        return false;
      }
      todo := todo - {k};
    }
    return true;
  }

  datatype Cwd = CwdIs(path: string) | CwdFault(fault: Fault)

  method NormalizeCwd(given: string, privilege: Privilege, cfg: RequestConfig, resolve: string -> Option<string>)
      returns (r: Cwd)
    ensures r.CwdFault? ==> CwdHas(r.fault, resolve, cfg, StartOf(given, privilege), privilege)
    ensures r.CwdIs? <==> forall fault :: !CwdHas(fault, resolve, cfg, StartOf(given, privilege), privilege)
    ensures r.CwdIs? ==> resolve(Clean(StartOf(given, privilege))) == Some(r.path)
    ensures var start := if given != "" then given else if privilege == Root then "/" else "/tmp";
      && (r.CwdIs? ==> resolve(Clean(start)) == Some(r.path))
      && (r.CwdIs? <==>
            && IsAbs(start) && resolve(Clean(start)).Some?
            && ((privilege == Root && cfg.allowAnyCwdForRoot) || Inside(resolve, cfg, resolve(Clean(start)).value)))
      && (r == CwdFault(CwdNotAbsolute) <==> !IsAbs(start))
      && (r == CwdFault(CwdMissing) <==> IsAbs(start) && resolve(Clean(start)).None?)
  {
    hide Clean, PathHasPrefix, Order;
    var cwd := given;
    if cwd == "" {
      if privilege == Root {
        cwd := "/";
      } else {
        cwd := "/tmp";
      }
    }
    if !IsAbs(cwd) {
      assert CwdHas(CwdNotAbsolute, resolve, cfg, cwd, privilege);
      return CwdFault(CwdNotAbsolute);
    }
    var cleaned := resolve(Clean(cwd));
    if cleaned.None? {
      assert CwdHas(CwdMissing, resolve, cfg, cwd, privilege);
      return CwdFault(CwdMissing);
    }
    if privilege == Root && cfg.allowAnyCwdForRoot {
      return CwdIs(cleaned.value);
    }
    for i := 0 to |cfg.allowedCwdPrefixes|
      invariant forall j :: 0 <= j < i ==> !PathHasPrefix(cleaned.value, PrefixOf(resolve, cfg.allowedCwdPrefixes[j]))
    {
      var cleanPrefix := Clean(cfg.allowedCwdPrefixes[i]);
      var resolved := resolve(cleanPrefix);
      if resolved.Some? {
        cleanPrefix := resolved.value;
      }
      if PathHasPrefix(cleaned.value, cleanPrefix) {
        return CwdIs(cleaned.value);
      }
    }
    assert CwdHas(CwdOutside, resolve, cfg, cwd, privilege);
    return CwdFault(CwdOutside);
  }

  function WithCommandDefaults(req: RunRequest): RunRequest {
    req.(privilege := PrivilegeOf(req), mode := if req.mode.UnsetMode? then Shell else req.mode)
  }

  function WithSizeDefaults(req: RunRequest, l: Limits): RunRequest {
    req.(timeoutSec := Or(req.timeoutSec, l.defaultTimeoutSec),
         waitSec := if req.waitSecSet then req.waitSec else Or(req.waitSec, l.defaultWaitSec),
         killGraceSec := Or(req.killGraceSec, l.defaultKillGraceSec),
         maxStdoutBytes := Or(req.maxStdoutBytes, l.defaultStdoutBytes),
         maxStderrBytes := Or(req.maxStderrBytes, l.defaultStderrBytes),
         maxStdoutLogBytes := Or(req.maxStdoutLogBytes, l.defaultStdoutLogBytes),
         maxStderrLogBytes := Or(req.maxStderrLogBytes, l.defaultStderrLogBytes))
  }

  method NormalizePrivilege(given: RunRequest, l: Limits) returns (r: Normalized)
    ensures var f := WithCommandDefaults(given);
      match r
      case Ok(req) => req == given.(privilege := f.privilege) && !CommandHas(RootConflict, l, f) && !CommandHas(BadPrivilege, l, f)
      case Rejected(e) => CommandHas(e, l, f) && forall g :: Order(g) < Order(e) ==> !CommandHas(g, l, f)
    ensures r.Ok? ==>
      r.req == given.(privilege := if given.privilege == Root || given.root == Some(true) then Root else User)
    ensures r.Ok? <==>
      && given.privilege in {Unset, User, Root}
      && (given.root == Some(true) ==> given.privilege != User) && (given.root == Some(false) ==> given.privilege != Root)
  {
    var req := given;
    if req.root.Some? {
      if req.root.value {
        if req.privilege != Unset && req.privilege != Root {
          return Rejected(RootConflict);
        }
        req := req.(privilege := Root);
      } else {
        if req.privilege == Root {
          return Rejected(RootConflict);
        }
        if req.privilege == Unset {
          req := req.(privilege := User);
        }
      }
    }
    if req.privilege == Unset {
      req := req.(privilege := User);
    }
    if req.privilege != User && req.privilege != Root {
      return Rejected(BadPrivilege);
    }
    return Ok(req);
  }

  method NormalizeCommand(given: RunRequest, l: Limits) returns (r: Normalized)
    ensures var f := WithCommandDefaults(given);
      match r
      case Ok(req) => req == f && forall e :: !CommandHas(e, l, f)
      case Rejected(e) => CommandHas(e, l, f) && forall g :: Order(g) < Order(e) ==> !CommandHas(g, l, f)
    ensures r.Ok? ==>
      r.req == given.(privilege := if given.privilege == Root || given.root == Some(true) then Root else User,
                      mode := if given.mode.UnsetMode? then Shell else given.mode)
  {
    ghost var f := WithCommandDefaults(given);
    r := NormalizePrivilege(given, l);
    if r.Rejected? {
      return;
    }
    var req := r.req;
    if req.mode.UnsetMode? {
      req := req.(mode := Shell);
    }
    assert req == f;
    if req.mode != Shell && req.mode != ArgvMode {
      assert CommandHas(BadMode, l, f);
      return Rejected(BadMode);
    }
    if req.mode == Shell {
      if Blank(req.cmd) {
        assert CommandHas(NoCommand, l, f);
        return Rejected(NoCommand);
      }
      if ByteLen(req.cmd) > l.maxCmdBytes {
        assert CommandHas(CommandTooLarge, l, f);
        return Rejected(CommandTooLarge);
      }
    } else {
      if req.argv == [] || req.argv[0] == "" {
        assert CommandHas(NoCommand, l, f);
        return Rejected(NoCommand);
      }
      var total := TotalArgv(req.argv);
      if total > l.maxCmdBytes {
        assert CommandHas(CommandTooLarge, l, f);
        return Rejected(CommandTooLarge);
      }
    }
    if ByteLen(req.stdin) > l.maxStdinBytes {
      assert CommandHas(StdinTooLarge, l, f);
      return Rejected(StdinTooLarge);
    }
    return Ok(req);
  }

  function WithTimeDefaults(req: RunRequest, l: Limits): RunRequest {
    req.(timeoutSec := Or(req.timeoutSec, l.defaultTimeoutSec),
         waitSec := if req.waitSecSet then req.waitSec else Or(req.waitSec, l.defaultWaitSec),
         killGraceSec := Or(req.killGraceSec, l.defaultKillGraceSec))
  }

  method NormalizeTimes(given: RunRequest, l: Limits) returns (r: Normalized)
    ensures var f := WithTimeDefaults(given, l);
      match r
      case Ok(req) => req == f && forall e :: Order(e) <= Order(KillGraceOutOfRange) ==> !SizeHas(e, l, f)
      case Rejected(e) =>
        Order(e) <= Order(KillGraceOutOfRange) && SizeHas(e, l, f) && forall g :: Order(g) < Order(e) ==> !SizeHas(g, l, f)
  {
    var req := given;
    ghost var f := WithTimeDefaults(given, l);
    if req.timeoutSec == 0 {
      req := req.(timeoutSec := l.defaultTimeoutSec);
    }
    if req.timeoutSec < 1 || req.timeoutSec > l.maxTimeoutSec {
      assert SizeHas(TimeoutOutOfRange, l, f);
      return Rejected(TimeoutOutOfRange);
    }
    if req.waitSec == 0 && !req.waitSecSet {
      req := req.(waitSec := l.defaultWaitSec);
    }
    if req.waitSec < 0 || req.waitSec > l.maxWaitSec {
      assert SizeHas(WaitOutOfRange, l, f);
      return Rejected(WaitOutOfRange);
    }
    if req.killGraceSec == 0 {
      req := req.(killGraceSec := l.defaultKillGraceSec);
    }
    if req.killGraceSec < 1 || req.killGraceSec > 30 {
      assert SizeHas(KillGraceOutOfRange, l, f);
      return Rejected(KillGraceOutOfRange);
    }
    return Ok(req);
  }

  method NormalizeSizes(given: RunRequest, l: Limits) returns (r: Normalized)
    ensures var f := WithSizeDefaults(given, l);
      match r
      case Ok(req) => req == f && forall e :: !SizeHas(e, l, f)
      case Rejected(e) => SizeHas(e, l, f) && forall g :: Order(g) < Order(e) ==> !SizeHas(g, l, f)
  {
    ghost var f := WithSizeDefaults(given, l);
    SameTimeFaults(given, l);
    r := NormalizeTimes(given, l);
    if r.Rejected? {
      return;
    }
    var req := r.req;
    if req.maxStdoutBytes == 0 {
      req := req.(maxStdoutBytes := l.defaultStdoutBytes);
    }
    if req.maxStderrBytes == 0 {
      req := req.(maxStderrBytes := l.defaultStderrBytes);
    }
    if req.maxStdoutLogBytes == 0 {
      req := req.(maxStdoutLogBytes := l.defaultStdoutLogBytes);
    }
    if req.maxStderrLogBytes == 0 {
      req := req.(maxStderrLogBytes := l.defaultStderrLogBytes);
    }
    assert req == f;
    r := CheckCaps(req, l);
  }

  /** The checks of the four output limits, given that the times are in range. */
  method CheckCaps(f: RunRequest, l: Limits) returns (r: Normalized)
    requires forall e :: Order(e) <= Order(KillGraceOutOfRange) ==> !SizeHas(e, l, f)
    ensures match r
      case Ok(req) => req == f && forall e :: !SizeHas(e, l, f)
      case Rejected(e) => SizeHas(e, l, f) && forall g :: Order(g) < Order(e) ==> !SizeHas(g, l, f)
  {
    if f.maxStdoutBytes < 0 || f.maxStdoutBytes > l.maxStdoutBytes {
      return Rejected(StdoutOutOfRange);
    }
    if f.maxStderrBytes < 0 || f.maxStderrBytes > l.maxStderrBytes {
      return Rejected(StderrOutOfRange);
    }
    if f.maxStdoutLogBytes < f.maxStdoutBytes || f.maxStdoutLogBytes > l.maxStdoutLogBytes {
      return Rejected(StdoutLogOutOfRange);
    }
    if f.maxStderrLogBytes < f.maxStderrBytes || f.maxStderrLogBytes > l.maxStderrLogBytes {
      return Rejected(StderrLogOutOfRange);
    }
    return Ok(f);
  }

  lemma SameTimeFaults(req: RunRequest, l: Limits)
    ensures forall e :: Order(e) <= Order(KillGraceOutOfRange) ==>
      (SizeHas(e, l, WithTimeDefaults(req, l)) <==> SizeHas(e, l, WithSizeDefaults(req, l)))
  {
  }

  /** Where the checks of each stage stand in the order. */
  lemma Stages(req: RunRequest, cfg: RequestConfig, resolve: string -> Option<string>)
    ensures var f := Filled(req, cfg);
      forall e ::
        Has(e, req, cfg, resolve) <==>
          if Order(e) <= 5 then CommandHas(e, cfg.limits, f)
          else if Order(e) <= 12 then SizeHas(e, cfg.limits, f)
          else if Order(e) <= 15 then CwdHas(e, resolve, cfg, f.cwd, f.privilege)
          else KeysHave(e, cfg, f)
    ensures forall e, f :: CommandHas(e, cfg.limits, f) ==> Order(e) <= 5
    ensures forall e, f :: SizeHas(e, cfg.limits, f) ==> 6 <= Order(e) <= 12
    ensures forall e, cwd, p :: CwdHas(e, resolve, cfg, cwd, p) ==> 13 <= Order(e) <= 15
  {
  }

  /** The defaults the first stages fill in are those of the whole. */
  lemma FilledInStages(req: RunRequest, cfg: RequestConfig)
    ensures var c := WithCommandDefaults(req);
      var f := WithSizeDefaults(c, cfg.limits);
      && Filled(req, cfg) == f.(cwd := Filled(req, cfg).cwd)
      && f.cwd == req.cwd && f.privilege == Filled(req, cfg).privilege
      && Filled(req, cfg).cwd == StartOf(f.cwd, f.privilege)
      && (forall e :: CommandHas(e, cfg.limits, c) <==> CommandHas(e, cfg.limits, Filled(req, cfg)))
      && (forall e :: SizeHas(e, cfg.limits, f) <==> SizeHas(e, cfg.limits, Filled(req, cfg)))
  {
  }

  /** `e` is the fault the checks come to first. */
  ghost predicate First(e: Fault, req: RunRequest, cfg: RequestConfig, resolve: string -> Option<string>) {
    Has(e, req, cfg, resolve) && forall g :: Order(g) < Order(e) ==> !Has(g, req, cfg, resolve)
  }

  lemma CommandFaultFirst(e: Fault, req: RunRequest, cfg: RequestConfig, resolve: string -> Option<string>)
    requires CommandHas(e, cfg.limits, Filled(req, cfg))
    requires forall g :: Order(g) < Order(e) ==> !CommandHas(g, cfg.limits, Filled(req, cfg))
    ensures First(e, req, cfg, resolve)
  {
    Stages(req, cfg, resolve);
    hide CommandHas, SizeHas, CwdHas, KeysHave, Has, Filled;
  }

  lemma SizeFaultFirst(e: Fault, req: RunRequest, cfg: RequestConfig, resolve: string -> Option<string>)
    requires forall g :: !CommandHas(g, cfg.limits, Filled(req, cfg))
    requires SizeHas(e, cfg.limits, Filled(req, cfg))
    requires forall g :: Order(g) < Order(e) ==> !SizeHas(g, cfg.limits, Filled(req, cfg))
    ensures First(e, req, cfg, resolve)
  {
    Stages(req, cfg, resolve);
    hide CommandHas, SizeHas, CwdHas, KeysHave, Has, Filled;
  }

  lemma LaterFaultFirst(e: Fault, req: RunRequest, cfg: RequestConfig, resolve: string -> Option<string>)
    requires var f := Filled(req, cfg);
      && (forall g :: !CommandHas(g, cfg.limits, f) && !SizeHas(g, cfg.limits, f))
      && (CwdHas(e, resolve, cfg, f.cwd, f.privilege) || KeysHave(e, cfg, f))
      && (KeysHave(e, cfg, f) ==> forall g :: !CwdHas(g, resolve, cfg, f.cwd, f.privilege))
      && (forall g :: Order(g) < Order(e) ==> !KeysHave(g, cfg, f))
    ensures First(e, req, cfg, resolve)
  {
    Stages(req, cfg, resolve);
    var f := Filled(req, cfg);
    if CwdHas(e, resolve, cfg, f.cwd, f.privilege) {
      FirstCwdFault(e, resolve, cfg, f.cwd, f.privilege);
    }
    hide CommandHas, SizeHas, CwdHas, KeysHave, Has, Filled;
  }

  lemma NoFault(req: RunRequest, cfg: RequestConfig, resolve: string -> Option<string>)
    requires var f := Filled(req, cfg);
      forall g ::
        && !CommandHas(g, cfg.limits, f) && !SizeHas(g, cfg.limits, f)
        && !CwdHas(g, resolve, cfg, f.cwd, f.privilege) && !KeysHave(g, cfg, f)
    ensures Acceptable(req, cfg, resolve)
  {
    hide CommandHas, SizeHas, CwdHas, KeysHave, Filled;
  }

  lemma KeyFaults(cfg: RequestConfig, f: RunRequest)
    ensures KeysHave(BadEnv, cfg, f) <==> exists k :: k in f.env && !ValidEnvVar(cfg, k, f.env[k])
    ensures KeysHave(BadLockKey, cfg, f) <==> !KeyOrEmpty(f.lockKey)
    ensures KeysHave(BadIdempotencyKey, cfg, f) <==> !KeyOrEmpty(f.idempotencyKey)
    ensures forall e :: KeysHave(e, cfg, f) ==> e in {BadEnv, BadLockKey, BadIdempotencyKey}
  {
  }

  /** The request is accepted exactly if it fits, and refused over the first fault it has. */
  method NormalizeRequest(given: RunRequest, cfg: RequestConfig, resolve: string -> Option<string>) returns (r: Normalized)
    ensures r.Ok? <==> Acceptable(given, cfg, resolve)
    ensures r.Ok? ==> r.req == Normal(given, cfg, resolve)
    ensures r.Rejected? ==> First(r.fault, given, cfg, resolve)
    ensures r.Ok? <==> Fits(given, cfg, resolve)
    ensures r.Ok? ==> Completes(given, r.req, cfg.limits, resolve)
    ensures r.Ok? ==> (r.req.privilege == Root <==> given.privilege == Root || given.root == Some(true))
    ensures r.Ok? ==> r.req.privilege == Root || r.req.privilege == User
  {
    AcceptableIffFits(given, cfg, resolve);
    r := CheckRequest(given, cfg, resolve);
    if r.Ok? {
      NormalCompletes(given, cfg, resolve);
    }
    hide *;
  }

  /** The checks in their order. */
  method CheckRequest(given: RunRequest, cfg: RequestConfig, resolve: string -> Option<string>) returns (r: Normalized)
    ensures r.Ok? <==> Acceptable(given, cfg, resolve)
    ensures r.Ok? ==> r.req == Normal(given, cfg, resolve)
    ensures r.Rejected? ==> First(r.fault, given, cfg, resolve)
  {
    ghost var f := Filled(given, cfg);
    hide Inside, Clean, IsAbs, ValidEnvKey, ByteLen;
    FilledInStages(given, cfg);
    KeyFaults(cfg, f);
    hide CommandHas, SizeHas, CwdHas, KeysHave, Has, Filled, WithCommandDefaults, WithSizeDefaults, ValidEnvVar, KeyOrEmpty, StartOf;
    r := NormalizeCommand(given, cfg.limits);
    if r.Rejected? {
      CommandFaultFirst(r.fault, given, cfg, resolve);
      return;
    }
    r := NormalizeSizes(r.req, cfg.limits);
    if r.Rejected? {
      SizeFaultFirst(r.fault, given, cfg, resolve);
      return;
    }
    var req := r.req;
    var cwd := NormalizeCwd(req.cwd, req.privilege, cfg, resolve);
    if cwd.CwdFault? {
      CwdFaultIsLate(cwd.fault, given, cfg, resolve);
      LaterFaultFirst(cwd.fault, given, cfg, resolve);
      return Rejected(cwd.fault);
    }
    req := req.(cwd := cwd.path);
    var envOk := ValidateEnv(req.env, cfg);
    if !envOk {
      LaterFaultFirst(BadEnv, given, cfg, resolve);
      return Rejected(BadEnv);
    }
    if !KeyOrEmpty(req.lockKey) {
      LaterFaultFirst(BadLockKey, given, cfg, resolve);
      return Rejected(BadLockKey);
    }
    if !KeyOrEmpty(req.idempotencyKey) {
      LaterFaultFirst(BadIdempotencyKey, given, cfg, resolve);
      return Rejected(BadIdempotencyKey);
    }
    NoFault(given, cfg, resolve);
    return Ok(req);
  }

  lemma CwdFaultIsLate(e: Fault, req: RunRequest, cfg: RequestConfig, resolve: string -> Option<string>)
    requires var f := Filled(req, cfg); CwdHas(e, resolve, cfg, f.cwd, f.privilege)
    ensures var f := Filled(req, cfg); !KeysHave(e, cfg, f) && forall g :: Order(g) < Order(e) ==> !KeysHave(g, cfg, f)
  {
    Stages(req, cfg, resolve);
    hide CommandHas, SizeHas, CwdHas, Has, Filled;
  }

  lemma FirstCwdFault(e: Fault, resolve: string -> Option<string>, cfg: RequestConfig, cwd: string, privilege: Privilege)
    requires CwdHas(e, resolve, cfg, cwd, privilege)
    ensures forall g :: Order(g) < Order(e) ==> !CwdHas(g, resolve, cfg, cwd, privilege)
  {
  }

  /** What is assumed of resolving symbolic links: the answer is clean and resolves to itself,
      and absolute paths resolve to absolute ones. */
  ghost predicate Lawful(resolve: string -> Option<string>) {
    forall p :: resolve(p).Some? ==>
      var q := resolve(p).value;
      Clean(q) == q && resolve(q) == Some(q) && (IsAbs(p) ==> IsAbs(q))
  }

  /** Normalising an accepted request again changes nothing. */
  lemma NormalIsStable(req: RunRequest, cfg: RequestConfig, resolve: string -> Option<string>)
    requires Lawful(resolve) && Acceptable(req, cfg, resolve)
    ensures Acceptable(Normal(req, cfg, resolve), cfg, resolve)
    ensures Normal(Normal(req, cfg, resolve), cfg, resolve) == Normal(req, cfg, resolve)
    ensures Filled(Normal(req, cfg, resolve), cfg) == Normal(req, cfg, resolve)
  {
    var f, n := Filled(req, cfg), Normal(req, cfg, resolve);
    NormalCwd(req, cfg, resolve);
    FilledIsStable(req, cfg, n.cwd);
    hide Filled, CommandHas, SizeHas, KeysHave, CwdHas, Clean;
    forall e ensures !Has(e, n, cfg, resolve) {
      assert !Has(e, req, cfg, resolve);
      SameFaults(e, f, n.cwd, cfg);
      CwdStillFine(e, f, n.cwd, cfg, resolve);
    }
  }

  lemma NormalCwd(req: RunRequest, cfg: RequestConfig, resolve: string -> Option<string>)
    requires Lawful(resolve) && Acceptable(req, cfg, resolve)
    ensures var f, n := Filled(req, cfg), Normal(req, cfg, resolve);
      && IsAbs(f.cwd) && resolve(Clean(f.cwd)) == Some(n.cwd)
      && n == f.(cwd := n.cwd)
      && IsAbs(n.cwd) && Clean(n.cwd) == n.cwd && resolve(n.cwd) == Some(n.cwd)
      && (Restricted(n.privilege, cfg) ==> Inside(resolve, cfg, n.cwd))
  {
    hide Filled, CommandHas, SizeHas, KeysHave, Clean;
    assert !Has(CwdNotAbsolute, req, cfg, resolve) && !Has(CwdMissing, req, cfg, resolve) && !Has(CwdOutside, req, cfg, resolve);
    CleanIsClean(Filled(req, cfg).cwd);
  }

  lemma FilledIsStable(req: RunRequest, cfg: RequestConfig, cwd: string)
    requires cwd != ""
    ensures Filled(Filled(req, cfg).(cwd := cwd), cfg) == Filled(req, cfg).(cwd := cwd)
  {
  }

  /** Only the checks of the directory look at it. */
  lemma SameFaults(e: Fault, f: RunRequest, cwd: string, cfg: RequestConfig)
    ensures CommandHas(e, cfg.limits, f.(cwd := cwd)) <==> CommandHas(e, cfg.limits, f)
    ensures SizeHas(e, cfg.limits, f.(cwd := cwd)) <==> SizeHas(e, cfg.limits, f)
    ensures KeysHave(e, cfg, f.(cwd := cwd)) <==> KeysHave(e, cfg, f)
  {
  }

  lemma CwdStillFine(e: Fault, f: RunRequest, cwd: string, cfg: RequestConfig, resolve: string -> Option<string>)
    requires !CwdHas(e, resolve, cfg, f.cwd, f.privilege) && IsAbs(f.cwd) && resolve(Clean(f.cwd)) == Some(cwd)
    requires IsAbs(cwd) && Clean(cwd) == cwd && resolve(cwd) == Some(cwd)
    ensures !CwdHas(e, resolve, cfg, cwd, f.privilege)
  {
    hide Clean;
  }

  /** Resolving to the lexically clean path, as where there are no symbolic links, is lawful. */
  lemma CleaningIsLawful()
    ensures Lawful((p: string) => if IsAbs(p) then Some(Clean(p)) else None)
  {
    forall p: string | IsAbs(p) ensures IsAbs(Clean(p)) && Clean(Clean(p)) == Clean(p) {
      CleanIsClean(p);
    }
  }

  /** What the hash of a request is taken of: its encoding without the legacy root flag. */
  function Hashed(req: RunRequest): RunRequest {
    req.(root := None, waitSecSet := false)
  }

  /** The flag and whether the wait was given are all the hash does not see. */
  lemma HashedIff(a: RunRequest, b: RunRequest)
    ensures Hashed(a) == Hashed(b) <==> a.(root := b.root, waitSecSet := b.waitSecSet) == b
  {
    assert Hashed(a).(root := b.root, waitSecSet := b.waitSecSet) == a.(root := b.root, waitSecSet := b.waitSecSet);
    assert Hashed(b).(root := b.root, waitSecSet := b.waitSecSet) == b;
  }

  /** Two requests have the same fate and, if accepted, the same hash. */
  ghost predicate Alike(a: RunRequest, b: RunRequest, cfg: RequestConfig, resolve: string -> Option<string>) {
    && (Acceptable(a, cfg, resolve) <==> Acceptable(b, cfg, resolve))
    && (Acceptable(a, cfg, resolve) ==> Hashed(Normal(a, cfg, resolve)) == Hashed(Normal(b, cfg, resolve)))
  }

  lemma SameFilledAlike(a: RunRequest, b: RunRequest, cfg: RequestConfig, resolve: string -> Option<string>)
    requires Hashed(Filled(a, cfg)) == Hashed(Filled(b, cfg))
    requires forall e :: CommandHas(e, cfg.limits, Filled(a, cfg)) <==> CommandHas(e, cfg.limits, Filled(b, cfg))
    ensures Alike(a, b, cfg, resolve)
  {
    var f, g := Filled(a, cfg), Filled(b, cfg);
    forall e ensures Has(e, a, cfg, resolve) <==> Has(e, b, cfg, resolve) {
      assert f == g.(root := f.root, waitSecSet := f.waitSecSet);
      assert SizeHas(e, cfg.limits, f) <==> SizeHas(e, cfg.limits, g);
      assert KeysHave(e, cfg, f) <==> KeysHave(e, cfg, g);
    }
  }

  /** The legacy root flag and the privilege it stands for are alike, unless they contradict. */
  lemma RootFlagIsPrivilege(req: RunRequest, cfg: RequestConfig, resolve: string -> Option<string>)
    requires req.root.Some?
    requires if req.root.value then req.privilege in {Unset, Root} else req.privilege != Root
    ensures Alike(req, req.(root := None, privilege := PrivilegeOf(req)), cfg, resolve)
  {
    SameFilledAlike(req, req.(root := None, privilege := PrivilegeOf(req)), cfg, resolve);
  }

  /** If flag and privilege contradict, the request is refused. */
  lemma RootFlagConflict(req: RunRequest, cfg: RequestConfig, resolve: string -> Option<string>)
    requires req.root.Some?
    requires if req.root.value then req.privilege !in {Unset, Root} else req.privilege == Root
    ensures !Acceptable(req, cfg, resolve)
  {
    assert Has(RootConflict, req, cfg, resolve);
  }

  /** Sending an accepted request again as it was normalised, with wait_sec now spelled out,
      gives the same hash. */
  lemma RetryHashesAlike(req: RunRequest, cfg: RequestConfig, resolve: string -> Option<string>)
    requires Lawful(resolve) && Acceptable(req, cfg, resolve)
    ensures var again := Hashed(Normal(req, cfg, resolve)).(waitSecSet := true);
      && Acceptable(again, cfg, resolve)
      && Hashed(Normal(again, cfg, resolve)) == Hashed(Normal(req, cfg, resolve))
  {
    hide CommandHas, SizeHas, CwdHas, KeysHave, Filled, Hashed, Normal, Lawful;
    var n := Normal(req, cfg, resolve);
    NormalIsStable(req, cfg, resolve);
    var again := Hashed(n).(waitSecSet := true);
    assert !Has(RootConflict, n, cfg, resolve);
    WithoutFlags(n, cfg);
    SameFilledAlike(n, again, cfg, resolve);
  }

  lemma WithoutFlags(n: RunRequest, cfg: RequestConfig)
    requires Filled(n, cfg) == n && !CommandHas(RootConflict, cfg.limits, n)
    ensures var again := Hashed(n).(waitSecSet := true);
      && Hashed(Filled(again, cfg)) == Hashed(n)
      && forall e :: CommandHas(e, cfg.limits, Filled(again, cfg)) <==> CommandHas(e, cfg.limits, n)
  {
  }

  /** For a restricted request, the components of the resulting directory extend those of some
      allowed prefix. */
  lemma CwdIsInside(req: RunRequest, cfg: RequestConfig, resolve: string -> Option<string>)
    requires Lawful(resolve) && Acceptable(req, cfg, resolve)
    requires Restricted(Normal(req, cfg, resolve).privilege, cfg)
    ensures var cwd := Normal(req, cfg, resolve).cwd;
      && IsAbs(cwd) && Clean(cwd) == cwd
      && exists i :: 0 <= i < |cfg.allowedCwdPrefixes| &&
           var prefix := PrefixOf(resolve, cfg.allowedCwdPrefixes[i]);
           IsAbs(prefix) && Components(prefix) <= Components(cwd)
  {
    var n := Normal(req, cfg, resolve);
    NormalCwd(req, cfg, resolve);
    hide Normal, Filled, Has, Components, Clean;
    var i :| 0 <= i < |cfg.allowedCwdPrefixes| && PathHasPrefix(n.cwd, PrefixOf(resolve, cfg.allowedCwdPrefixes[i]));
    PrefixIsAbsolute(resolve, cfg.allowedCwdPrefixes[i], n.cwd);
    PrefixIsComponentPrefix(n.cwd, PrefixOf(resolve, cfg.allowedCwdPrefixes[i]));
  }

  /** A relative prefix holds no directory. */
  lemma PrefixIsAbsolute(resolve: string -> Option<string>, p: string, cwd: string)
    requires Lawful(resolve) && IsAbs(cwd) && PathHasPrefix(cwd, PrefixOf(resolve, p))
    ensures IsAbs(PrefixOf(resolve, p)) && Clean(PrefixOf(resolve, p)) == PrefixOf(resolve, p)
  {
    var q := PrefixOf(resolve, p);
    CleanIsNotEmpty(q);
    if resolve(Clean(p)).None? {
      if IsAbs(p) {
        CleanIsClean(p);
      } else {
        CleanRelative(p);
      }
    }
    if q != "" && q != "/" {
      assert q[0] == cwd[0];
    }
  }

  lemma CleanIsNotEmpty(p: string)
    ensures Clean(p) != ""
  {
    if IsAbs(p) {
      CleanIsClean(p);
    } else {
      CleanRelative(p);
    }
  }
}
