/**
 * Request options (`struct easyhttp_Options`): the defaults, the reading of
 * the Lua configuration table field by field, the serialisation of the
 * `headers` table into `Key: Value` lines through a reused scratch buffer,
 * and the transport settings derived from the result.
 */
module Options {
  import opened Wrappers

  /** The Lua values a configuration table can hold, as far as the options reader tells them apart. */
  datatype LuaValue =
    | Nil
    | Boolean(b: bool)
    | Integer(i: int)
    | Str(s: string)
    | Table(pairs: seq<(LuaValue, LuaValue)>)  // in `lua_next` iteration order
    | File(handle: nat)                          // a `FILE*` userdata
    | Other

  /** The configuration table, read with `lua_getfield`; an absent key reads as nil. */
  type Config = map<string, LuaValue>

  function Field(cfg: Config, key: string): LuaValue {
    if key in cfg then cfg[key] else Nil
  }

  datatype Options = Options(
    verb: string,   // the `method` key
    body: Option<string>,
    timeout: int,
    followRedirects: bool,
    maxRedirects: int,
    outputFile: Option<nat>,
    headers: seq<string>)  // the `curl_slist`; NULL is the empty list

  /** `EASYHTTP_DEFAULT_OPTIONS`. */
  function Defaults(): (o: Options)
    ensures o.verb == "GET" && o.body == None && o.timeout == 0
    ensures !o.followRedirects && o.maxRedirects == -1
    ensures o.outputFile == None && o.headers == []
  {
    Options("GET", None, 0, false, -1, None, [])
  }

  /** Either a Lua error raised by a `luaL_check*` call (naming what it expected), or a value. */
  datatype Checked<T> = Raised(expected: string) | Returned(value: T)

  function CheckString(v: LuaValue): (r: Checked<string>)
    ensures r.Returned? <==> v.Str?
    ensures r.Returned? ==> r.value == v.s
  {
    if v.Str? then Returned(v.s) else Raised("string expected")
  }

  function CheckInteger(v: LuaValue): (r: Checked<int>)
    ensures r.Returned? <==> v.Integer?
    ensures r.Returned? ==> r.value == v.i
  {
    if v.Integer? then Returned(v.i) else Raised("number expected")
  }

  function CheckFile(v: LuaValue): (r: Checked<nat>)
    ensures r.Returned? <==> v.File?
    ensures r.Returned? ==> r.value == v.handle
  {
    if v.File? then Returned(v.handle) else Raised("FILE* expected")
  }

  /** `lua_toboolean`: only nil and false are false. */
  function ToBoolean(v: LuaValue): (b: bool)
    ensures !b <==> v == Nil || v == Boolean(false)
  {
    match v
    case Nil => false
    case Boolean(b) => b
    case _ => true
  }

  /** The conversion of a `lua_Integer` into a 32-bit C `int`: the low 32 bits as two's complement. */
  function CInt(i: int): (r: int)
    ensures -0x8000_0000 <= r < 0x8000_0000
    ensures (r - i) % 0x1_0000_0000 == 0
    ensures -0x8000_0000 <= i < 0x8000_0000 ==> r == i
  {
    var low := i % 0x1_0000_0000;
    if low < 0x8000_0000 then low else low - 0x1_0000_0000
  }

  /** A present `method`, `body`, `timeout`, `max_redirects` or `output_file` of the wrong Lua type. */
  predicate ScalarIllTyped(cfg: Config) {
    || (Field(cfg, "method") != Nil && !Field(cfg, "method").Str?)
    || (Field(cfg, "body") != Nil && !Field(cfg, "body").Str?)
    || (Field(cfg, "timeout") != Nil && !Field(cfg, "timeout").Integer?)
    || (Field(cfg, "max_redirects") != Nil && !Field(cfg, "max_redirects").Integer?)
    || (Field(cfg, "output_file") != Nil && !Field(cfg, "output_file").File?)
  }

  /**
   * The fields other than `headers`, read in the source's order; a field
   * that is nil keeps its default, the first ill-typed one raises.
   */
  function ParseScalars(cfg: Config): (r: Checked<Options>)
    ensures r.Raised? <==> ScalarIllTyped(cfg)
    ensures r.Returned? ==> r.value.headers == []
  {
    var d := Defaults();
    var m := Field(cfg, "method");
    var b := Field(cfg, "body");
    var t := Field(cfg, "timeout");
    var f := Field(cfg, "follow_redirects");
    var r := Field(cfg, "max_redirects");
    var o := Field(cfg, "output_file");
    if m != Nil && CheckString(m).Raised? then Raised(CheckString(m).expected)
    else if b != Nil && CheckString(b).Raised? then Raised(CheckString(b).expected)
    else if t != Nil && CheckInteger(t).Raised? then Raised(CheckInteger(t).expected)
    else if r != Nil && CheckInteger(r).Raised? then Raised(CheckInteger(r).expected)
    else if o != Nil && CheckFile(o).Raised? then Raised(CheckFile(o).expected)
    else Returned(Options(
      if m == Nil then d.verb else m.s,
      if b == Nil then d.body else Some(b.s),
      if t == Nil then d.timeout else CInt(t.i),
      if f == Nil then d.followRedirects else ToBoolean(f),
      if r == Nil then d.maxRedirects else CInt(r.i),
      if o == Nil then d.outputFile else Some(o.handle),
      d.headers))
  }

  /** Every key the configuration leaves out keeps its default, and an empty configuration gives the defaults. */
  lemma AbsentKeysKeepDefaults(cfg: Config)
    requires ParseScalars(cfg).Returned?
    ensures var o := ParseScalars(cfg).value;
      && ("method" !in cfg ==> o.verb == "GET")
      && ("body" !in cfg ==> o.body == None)
      && ("timeout" !in cfg ==> o.timeout == 0)
      && ("follow_redirects" !in cfg ==> !o.followRedirects)
      && ("max_redirects" !in cfg ==> o.maxRedirects == -1)
      && ("output_file" !in cfg ==> o.outputFile == None)
      && o.headers == []
    ensures cfg == map[] ==> ParseScalars(cfg) == Returned(Defaults())
  {
  }

  // ---------------------------------------------------------------------
  // Header serialisation

  /** The C string a `const char *` denotes: the characters before the first NUL. */
  function CStr(s: string): (c: string)
    ensures '\0' !in c && c <= s
    ensures |c| < |s| ==> s[|c|] == '\0'
  {
    if s == [] || s[0] == '\0' then [] else [s[0]] + CStr(s[1..])
  }

  /** `snprintf(buf, cap, "%s", s)` followed by reading `buf` back: at most `cap - 1` characters survive. */
  function Snprintf(cap: nat, s: string): (w: string)
    requires cap > 0
    ensures w <= s && |w| <= cap - 1
    ensures |s| <= cap - 1 ==> w == s
  {
    if |s| <= cap - 1 then s else s[..cap - 1]
  }

  predicate StringPair(p: (LuaValue, LuaValue)) {
    p.0.Str? && p.1.Str?
  }

  /** The line `Key: Value` for one string pair, as `strlen` sees key and value. */
  function Line(p: (LuaValue, LuaValue)): string
    requires StringPair(p)
  {
    CStr(p.0.s) + ": " + CStr(p.1.s)
  }

  /** The scratch size the pair needs: both lengths, the separator and the NUL. */
  function Need(p: (LuaValue, LuaValue)): (n: nat)
    requires StringPair(p)
    ensures n == |Line(p)| + 1
  {
    |CStr(p.0.s)| + |CStr(p.1.s)| + 3
  }

  /** One line per pair, in iteration order. */
  function Lines(ps: seq<(LuaValue, LuaValue)>): (ls: seq<string>)
    requires forall i :: 0 <= i < |ps| ==> StringPair(ps[i])
    ensures |ls| == |ps|
    ensures forall i :: 0 <= i < |ps| ==> ls[i] == Line(ps[i])
  {
    if ps == [] then [] else [Line(ps[0])] + Lines(ps[1..])
  }

  /** The largest need among the pairs, 0 for none. */
  function MaxNeed(ps: seq<(LuaValue, LuaValue)>): (n: nat)
    requires forall i :: 0 <= i < |ps| ==> StringPair(ps[i])
    ensures forall i :: 0 <= i < |ps| ==> Need(ps[i]) <= n
    ensures ps != [] ==> exists i :: 0 <= i < |ps| && Need(ps[i]) == n
    ensures ps == [] ==> n == 0
  {
    if ps == [] then 0
    else
      var rest := MaxNeed(ps[1..]);
      assert forall i :: 1 <= i < |ps| ==> ps[i] == ps[1..][i - 1];
      if Need(ps[0]) >= rest then Need(ps[0]) else rest
  }

  datatype HeaderStatus = Serialised | OutOfMemory(message: string) | HeadersRaised(expected: string)

  /** What the header loop leaves behind: the list built so far, how it ended, and the scratch size. */
  datatype Serialisation = Serialisation(lines: seq<string>, status: HeaderStatus, scratch: nat)

  const MallocFailed := "failed to allocate memory for headers"
  const ReallocFailed := "failed to resize memory for headers"

  /**
   * The loop from its current point: scratch size `scratch`, next
   * allocation attempt number `next`; allocation attempt `failAt` (if any)
   * fails. The size is recorded before the `realloc` is tried.
   */
  function SerialiseFrom(ps: seq<(LuaValue, LuaValue)>, scratch: nat, next: nat, failAt: Option<nat>): (r: Serialisation)
    ensures |r.lines| <= |ps| && r.scratch >= scratch
    ensures r.status.Serialised? ==> |r.lines| == |ps|
    ensures r.status.OutOfMemory? ==> failAt.Some? && r.status.message == ReallocFailed
    decreases |ps|
  {
    if ps == [] then Serialisation([], Serialised, scratch)
    else if !ps[0].0.Str? then Serialisation([], HeadersRaised(CheckString(ps[0].0).expected), scratch)
    else if !ps[0].1.Str? then Serialisation([], HeadersRaised(CheckString(ps[0].1).expected), scratch)
    else
      var need := Need(ps[0]);
      if need > scratch && failAt == Some(next) then Serialisation([], OutOfMemory(ReallocFailed), need)
      else
        var size := if need > scratch then need else scratch;
        var next' := if need > scratch then next + 1 else next;
        var rest := SerialiseFrom(ps[1..], size, next', failAt);
        Serialisation([Snprintf(size, Line(ps[0]))] + rest.lines, rest.status, rest.scratch)
  }

  /** The whole loop: allocation attempt 0 is the initial one-byte `malloc`. */
  function SerialiseHeaders(ps: seq<(LuaValue, LuaValue)>, failAt: Option<nat>): (r: Serialisation)
    ensures failAt == None ==> !r.status.OutOfMemory?
    ensures r.status == OutOfMemory(MallocFailed) ==> r.lines == [] && failAt == Some(0)
    ensures r.status.Serialised? ==> |r.lines| == |ps|
  {
    if failAt == Some(0) then Serialisation([], OutOfMemory(MallocFailed), 0)
    else SerialiseFrom(ps, 0, 1, failAt)
  }

  /** One turn of the loop for a string pair. */
  lemma SerialiseFromStep(ps: seq<(LuaValue, LuaValue)>, scratch: nat, next: nat, failAt: Option<nat>)
    requires ps != [] && StringPair(ps[0])
    ensures var need := Need(ps[0]);
      var size := if need > scratch then need else scratch;
      var next' := if need > scratch then next + 1 else next;
      var rest := SerialiseFrom(ps[1..], size, next', failAt);
      SerialiseFrom(ps, scratch, next, failAt) ==
        if need > scratch && failAt == Some(next) then Serialisation([], OutOfMemory(ReallocFailed), need)
        else Serialisation([Snprintf(size, Line(ps[0]))] + rest.lines, rest.status, rest.scratch)
  {
  }

  /** The outcome `r` of the rest of the loop behind the lines already built. */
  function Prefixed(lines: seq<string>, r: Serialisation): Serialisation {
    Serialisation(lines + r.lines, r.status, r.scratch)
  }

  lemma PrefixedAppend(lines: seq<string>, line: string, r: Serialisation)
    ensures Prefixed(lines, Serialisation([line] + r.lines, r.status, r.scratch)) == Prefixed(lines + [line], r)
  {
    assert lines + ([line] + r.lines) == (lines + [line]) + r.lines;
  }

  /** One turn of the loop, on the loop's own variables: raise, run out of memory, or append the line and go on. */
  lemma LoopTurn(ps: seq<(LuaValue, LuaValue)>, i: nat, lines: seq<string>, scratch: nat, next: nat, failAt: Option<nat>)
    requires i < |ps|
    ensures var p := ps[i];
      Prefixed(lines, SerialiseFrom(ps[i..], scratch, next, failAt)) ==
        if !p.0.Str? then Serialisation(lines, HeadersRaised(CheckString(p.0).expected), scratch)
        else if !p.1.Str? then Serialisation(lines, HeadersRaised(CheckString(p.1).expected), scratch)
        else if Need(p) > scratch && failAt == Some(next) then Serialisation(lines, OutOfMemory(ReallocFailed), Need(p))
        else
          var size := if Need(p) > scratch then Need(p) else scratch;
          var next' := if Need(p) > scratch then next + 1 else next;
          Prefixed(lines + [Snprintf(size, Line(p))], SerialiseFrom(ps[i + 1..], size, next', failAt))
  {
    var p := ps[i];
    assert ps[i..][0] == p && ps[i..][1..] == ps[i + 1..];
    assert lines + [] == lines;
    if StringPair(p) {
      SerialiseFromStep(ps[i..], scratch, next, failAt);
      var size := if Need(p) > scratch then Need(p) else scratch;
      var next' := if Need(p) > scratch then next + 1 else next;
      PrefixedAppend(lines, Snprintf(size, Line(p)), SerialiseFrom(ps[i + 1..], size, next', failAt));
    }
  }

  /**
   * The `while (lua_next(...))` loop of `easyhttp_parse_options`: grows the
   * scratch buffer to exactly the need of a line that does not fit, formats
   * the line into it and appends it to the list.
   */
  method BuildHeaderList(ps: seq<(LuaValue, LuaValue)>, failAt: Option<nat>)
      returns (lines: seq<string>, status: HeaderStatus, scratch: nat)
    ensures Serialisation(lines, status, scratch) == SerialiseHeaders(ps, failAt)
  {
    lines, scratch := [], 0;
    if failAt == Some(0) {
      return [], OutOfMemory(MallocFailed), 0;
    }
    var next := 1;
    var i := 0;
    while i < |ps|
      invariant 0 <= i <= |ps|
      invariant SerialiseHeaders(ps, failAt) == Prefixed(lines, SerialiseFrom(ps[i..], scratch, next, failAt))
    {
      var p := ps[i];
      LoopTurn(ps, i, lines, scratch, next, failAt);
      if !p.0.Str? {
        return lines, HeadersRaised(CheckString(p.0).expected), scratch;
      }
      if !p.1.Str? {
        return lines, HeadersRaised(CheckString(p.1).expected), scratch;
      }
      var need := |CStr(p.0.s)| + |CStr(p.1.s)| + 3;
      if need > scratch {
        scratch := need;
        if failAt == Some(next) {
          return lines, OutOfMemory(ReallocFailed), scratch;
        }
        next := next + 1;
      }
      lines := lines + [Snprintf(scratch, Line(p))];
      i := i + 1;
    }
    assert ps[i..] == [];
    status := Serialised;
  }

  /** A line is never cut short: the scratch buffer always holds the whole line and its NUL. */
  lemma {:induction false} SerialiseFromLines(ps: seq<(LuaValue, LuaValue)>, scratch: nat, next: nat, failAt: Option<nat>)
    ensures var r := SerialiseFrom(ps, scratch, next, failAt);
      && |r.lines| <= |ps|
      && (forall i :: 0 <= i < |r.lines| ==> StringPair(ps[i]) && r.lines[i] == Line(ps[i]))
      && (r.status.Serialised? ==> |r.lines| == |ps|)
      && (r.status.OutOfMemory? ==> failAt.Some? && r.status.message == ReallocFailed)
      && r.scratch >= scratch
    decreases |ps|
  {
    if ps != [] && StringPair(ps[0]) {
      var need := Need(ps[0]);
      if !(need > scratch && failAt == Some(next)) {
        var size := if need > scratch then need else scratch;
        var next' := if need > scratch then next + 1 else next;
        SerialiseFromLines(ps[1..], size, next', failAt);
      }
    }
  }

  /**
   * Whatever the outcome, the list holds one full line per pair, for a
   * prefix of the pairs in iteration order; it is complete when the loop
   * ran to its end; running out of memory needs a failed allocation and
   * reports which one.
   */
  lemma SerialiseHeadersLines(ps: seq<(LuaValue, LuaValue)>, failAt: Option<nat>)
    ensures var r := SerialiseHeaders(ps, failAt);
      && |r.lines| <= |ps|
      && (forall i :: 0 <= i < |r.lines| ==> StringPair(ps[i]) && r.lines[i] == Line(ps[i]))
      && (r.status.Serialised? ==> |r.lines| == |ps|)
      && (r.status.OutOfMemory? ==> failAt.Some?)
      && (r.status == OutOfMemory(MallocFailed) <==> failAt == Some(0))
  {
    if failAt != Some(0) {
      SerialiseFromLines(ps, 0, 1, failAt);
    }
  }

  /** With string pairs and no failed allocation the loop succeeds; the scratch buffer ends at the largest need. */
  lemma {:induction false} SerialiseFromComplete(ps: seq<(LuaValue, LuaValue)>, scratch: nat, next: nat)
    requires forall i :: 0 <= i < |ps| ==> StringPair(ps[i])
    ensures SerialiseFrom(ps, scratch, next, None) ==
      Serialisation(Lines(ps), Serialised, if MaxNeed(ps) > scratch then MaxNeed(ps) else scratch)
    decreases |ps|
  {
    if ps != [] {
      var need := Need(ps[0]);
      var size := if need > scratch then need else scratch;
      var next' := if need > scratch then next + 1 else next;
      assert forall i :: 0 <= i < |ps[1..]| ==> ps[1..][i] == ps[i + 1];
      SerialiseFromComplete(ps[1..], size, next');
    }
  }

  lemma SerialiseHeadersComplete(ps: seq<(LuaValue, LuaValue)>)
    requires forall i :: 0 <= i < |ps| ==> StringPair(ps[i])
    ensures SerialiseHeaders(ps, None) == Serialisation(Lines(ps), Serialised, MaxNeed(ps))
  {
    SerialiseFromComplete(ps, 0, 1);
  }

  // ---------------------------------------------------------------------
  // The whole reader

  /** A Lua error, or the options together with the `*error` message (None is the NULL that means success). */
  datatype ParseResult = ParseRaised(expected: string) | Parsed(options: Options, error: Option<string>)

  /** What the reader returns for a configuration, allocation attempt `failAt` (if any) failing. */
  function Parse(cfg: Config, failAt: Option<nat>): (r: ParseResult)
    ensures r.Parsed? && r.error.Some? ==> failAt.Some? && Field(cfg, "headers").Table?
    ensures r.Parsed? && !Field(cfg, "headers").Table? ==> r.options.headers == [] && r.error.None?
    ensures ScalarIllTyped(cfg) ==> r.ParseRaised?
  {
    match ParseScalars(cfg)
    case Raised(e) => ParseRaised(e)
    case Returned(o) =>
      if !Field(cfg, "headers").Table? then Parsed(o, None)
      else
        var s := SerialiseHeaders(Field(cfg, "headers").pairs, failAt);
        match s.status
        case HeadersRaised(e) => ParseRaised(e)
        case OutOfMemory(m) => Parsed(o.(headers := s.lines), Some(m))
        case Serialised => Parsed(o.(headers := s.lines), None)
  }

  /** An empty configuration gives the defaults and no error. */
  lemma ParseEmpty(failAt: Option<nat>)
    ensures Parse(map[], failAt) == Parsed(Defaults(), None)
  {
    AbsentKeysKeepDefaults(map[]);
  }

  /**
   * A successful read: every absent key keeps its default, and a `headers`
   * table of string pairs becomes one `Key: Value` line per pair in
   * iteration order.
   */
  lemma ParseSucceeds(cfg: Config)
    requires ParseScalars(cfg).Returned?
    requires var h := Field(cfg, "headers");
      h.Table? ==> forall i :: 0 <= i < |h.pairs| ==> StringPair(h.pairs[i])
    ensures var r := Parse(cfg, None);
      && r.Parsed? && r.error.None?
      && r.options == ParseScalars(cfg).value.(headers := r.options.headers)
      && (Field(cfg, "headers").Table? ==> r.options.headers == Lines(Field(cfg, "headers").pairs))
      && (!Field(cfg, "headers").Table? ==> r.options.headers == [])
  {
    AbsentKeysKeepDefaults(cfg);
    if Field(cfg, "headers").Table? {
      SerialiseHeadersComplete(Field(cfg, "headers").pairs);
    }
  }

  /** A `headers` table holding a key or a value that is not a string. */
  predicate HeaderIllTyped(cfg: Config) {
    var h := Field(cfg, "headers");
    h.Table? && exists i :: 0 <= i < |h.pairs| && !StringPair(h.pairs[i])
  }

  /** The loop raises only on a pair that is not two strings, and with no failed allocation always on the first such pair. */
  lemma {:induction false} SerialiseFromRaises(ps: seq<(LuaValue, LuaValue)>, scratch: nat, next: nat, failAt: Option<nat>)
    ensures SerialiseFrom(ps, scratch, next, failAt).status.HeadersRaised? ==> exists i :: 0 <= i < |ps| && !StringPair(ps[i])
    ensures failAt == None && (exists i :: 0 <= i < |ps| && !StringPair(ps[i])) ==>
      SerialiseFrom(ps, scratch, next, failAt).status.HeadersRaised?
    decreases |ps|
  {
    if ps != [] && StringPair(ps[0]) {
      var size := if Need(ps[0]) > scratch then Need(ps[0]) else scratch;
      var next' := if Need(ps[0]) > scratch then next + 1 else next;
      SerialiseFromRaises(ps[1..], size, next', failAt);
      if exists i :: 0 <= i < |ps| && !StringPair(ps[i]) {
        var i :| 0 <= i < |ps| && !StringPair(ps[i]);
        assert ps[1..][i - 1] == ps[i];
      }
      if exists i :: 0 <= i < |ps[1..]| && !StringPair(ps[1..][i]) {
        var i :| 0 <= i < |ps[1..]| && !StringPair(ps[1..][i]);
        assert ps[i + 1] == ps[1..][i];
      }
    }
  }

  /**
   * With no failed allocation the reader raises exactly when a present
   * scalar field has the wrong type or the `headers` table holds a
   * non-string key or value; whatever the allocations do, it raises only
   * then.
   */
  lemma ParseRaises(cfg: Config, failAt: Option<nat>)
    ensures Parse(cfg, failAt).ParseRaised? ==> ScalarIllTyped(cfg) || HeaderIllTyped(cfg)
    ensures Parse(cfg, None).ParseRaised? <==> ScalarIllTyped(cfg) || HeaderIllTyped(cfg)
  {
    var h := Field(cfg, "headers");
    if h.Table? {
      SerialiseFromRaises(h.pairs, 0, 1, failAt);
      SerialiseFromRaises(h.pairs, 0, 1, None);
    }
  }

  /** A present field that is read successfully replaces its default. */
  lemma PresentKeysOverride(cfg: Config)
    requires !ScalarIllTyped(cfg)
    ensures var o := ParseScalars(cfg).value;
      var m, b, t := Field(cfg, "method"), Field(cfg, "body"), Field(cfg, "timeout");
      var f, r, out := Field(cfg, "follow_redirects"), Field(cfg, "max_redirects"), Field(cfg, "output_file");
      && (m != Nil ==> m.Str? && o.verb == m.s)
      && (b != Nil ==> b.Str? && o.body == Some(b.s))
      && (t != Nil ==> t.Integer? && o.timeout == CInt(t.i))
      && (f != Nil ==> o.followRedirects == ToBoolean(f))
      && (r != Nil ==> r.Integer? && o.maxRedirects == CInt(r.i))
      && (out != Nil ==> out.File? && o.outputFile == Some(out.handle))
  {
  }

  /**
   * `easyhttp_parse_options`: the scalar fields, then the `headers` field if
   * it is a table (any other value of it is ignored).
   */
  method ParseOptions(cfg: Config, failAt: Option<nat>) returns (r: ParseResult)
    ensures r == Parse(cfg, failAt)
  {
    var scalars := ParseScalars(cfg);
    if scalars.Raised? {
      return ParseRaised(scalars.expected);
    }
    var options := scalars.value;
    var h := Field(cfg, "headers");
    if !h.Table? {
      return Parsed(options, None);
    }
    var lines, status, _ := BuildHeaderList(h.pairs, failAt);
    match status
    case HeadersRaised(e) => r := ParseRaised(e);
    case OutOfMemory(m) => r := Parsed(options.(headers := lines), Some(m));
    case Serialised => r := Parsed(options.(headers := lines), None);
  }

  // ---------------------------------------------------------------------
  // Transport settings

  datatype CurlSetting =
    | CustomRequest(verb: string)
    | PostFields(body: string)
    | Timeout(seconds: int)
    | FollowLocation(follow: bool)
    | MaxRedirs(limit: int)
    | HttpHeader(lines: seq<string>)

  /** `easyhttp_set_options`: the settings applied to a transport handle, in order. */
  function SetOptions(o: Options): (r: seq<CurlSetting>)
    ensures |r| > 0 && r[0] == CustomRequest(o.verb)
    ensures forall b :: PostFields(b) in r <==> o.body == Some(b)
    ensures forall ls :: HttpHeader(ls) in r <==> o.headers != [] && ls == o.headers
    ensures Timeout(o.timeout) in r && FollowLocation(o.followRedirects) in r && MaxRedirs(o.maxRedirects) in r
  {
    [CustomRequest(o.verb)]
    + (if o.body.Some? then [PostFields(o.body.value)] else [])
    + [Timeout(o.timeout), FollowLocation(o.followRedirects), MaxRedirs(o.maxRedirects)]
    + (if o.headers != [] then [HttpHeader(o.headers)] else [])
  }
}
