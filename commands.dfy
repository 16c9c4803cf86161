/**
 * The debugger commands of comon/ext.cpp (`!comon`, `!cobp`, `!cobl`, `!cobd`,
 * `!coreg`, `!cometa`) as transitions of the extension's session. The session
 * holds at most one active COM monitor and the metadata store; the monitor's and
 * the store's own operations are opaque: the model records that they were
 * invoked, and takes the results they return as parameters.
 */
module Commands {
  import opened Common
  import opened Tokenizer
  import opened Filter

  /** What a command handler hands back to the debugger. */
  datatype HResult =
    | Ok                     // S_OK
    | InvalidArg             // E_INVALIDARG
    | Fail                   // E_FAIL
    | GuidParseFailure       // the failing HRESULT of GUID parsing, returned unchanged
    | InvalidArgumentThrown  // std::invalid_argument from stoul/stoull, not caught by the handler
    | Code(value: int)       // any other HRESULT, from an operation of the monitor or the store

  // ---------------------------------------------------------------------------
  // Unsigned decimal numbers (the part of std::stoul/std::stoull the commands rely on)

  predicate IsDigit(c: char)
  {
    '0' <= c <= '9'
  }

  /** The length of the leading run of decimal digits. */
  function DigitRun(s: string): (n: nat)
    ensures n <= |s|
    ensures forall i :: 0 <= i < n ==> IsDigit(s[i])
    ensures n < |s| ==> !IsDigit(s[n])
    decreases |s|
  {
    if s == [] || !IsDigit(s[0]) then 0 else 1 + DigitRun(s[1..])
  }

  function DigitValue(c: char): nat
    requires IsDigit(c)
  {
    c as int - '0' as int
  }

  /** The number a string of decimal digits denotes. */
  function DecimalValue(ds: string): nat
    requires forall i :: 0 <= i < |ds| ==> IsDigit(ds[i])
    decreases |ds|
  {
    if ds == [] then 0
    else 10 * DecimalValue(ds[..|ds| - 1]) + DigitValue(ds[|ds| - 1])
  }

  /** `s` without its leading whitespace. */
  function SkipSpaces(s: string): (r: string)
    ensures |r| <= |s| && r == s[|s| - |r|..]
    ensures r != [] ==> !IsSpace(r[0])
    ensures forall i :: 0 <= i < |s| - |r| ==> IsSpace(s[i])
    decreases |s|
  {
    if s != [] && IsSpace(s[0]) then SkipSpaces(s[1..]) else s
  }

  /**
   * std::stoul without sign, overflow or exceptions: leading whitespace is skipped
   * and the number is the run of digits that follows; no digit there means failure.
   */
  function ParseUnsigned(s: string): Option<nat>
  {
    var t := SkipSpaces(s);
    var n := DigitRun(t);
    if n == 0 then None else Some(DecimalValue(t[..n]))
  }

  /** A token made only of digits parses to its full value. */
  lemma AllDigitsParse(s: string)
    requires s != [] && forall i :: 0 <= i < |s| ==> IsDigit(s[i])
    ensures ParseUnsigned(s) == Some(DecimalValue(s))
  {
    assert !IsSpace(s[0]);
    assert SkipSpaces(s) == s;
    assert DigitRun(s) == |s|;
    assert s[..|s|] == s;
  }

  /** A token whose first character is neither a digit nor whitespace does not parse. */
  lemma NoLeadingDigitFails(s: string)
    requires s == [] || (!IsDigit(s[0]) && !IsSpace(s[0]) && s[0] != '+' && s[0] != '-')
    ensures ParseUnsigned(s) == None
  {
  }

  // ---------------------------------------------------------------------------
  // The opaque collaborators

  /** How `!cobp` names the method to break on. */
  datatype MethodSelector = ByIndex(index: nat) | ByName(name: string)

  /** The selector a token stands for: a number when it parses as one, a method name otherwise. */
  function Selector(token: string): MethodSelector
  {
    match ParseUnsigned(token)
    case Some(n) => ByIndex(n)
    case None => ByName(token)
  }

  /** `!cobp ... 3` breaks on the method at index 3. */
  lemma DigitsSelectIndex(token: string)
    requires token != [] && forall i :: 0 <= i < |token| ==> IsDigit(token[i])
    ensures Selector(token) == ByIndex(DecimalValue(token))
  {
    AllDigitsParse(token);
  }

  /** `!cobp ... Release` breaks on the method named Release. */
  lemma NameSelectsByName(token: string)
    requires token == [] || (!IsDigit(token[0]) && !IsSpace(token[0]) && token[0] != '+' && token[0] != '-')
    ensures Selector(token) == ByName(token)
  {
    NoLeadingDigitFails(token);
  }

  /** The monitor operations that change its state, in the order they are invoked. */
  datatype MonitorCall =
    | Pause
    | Resume
    | CreateBreakpoint(clsid: Guid, iid: Guid, selector: MethodSelector)
    | RemoveBreakpoint(id: nat)
    | RegisterVtable(clsid: Guid, iid: Guid, address: nat, is64bit: bool)

  /** An active monitor: the filter it was attached with and the operations invoked on it since. */
  datatype Monitor = Monitor(filter: CoFilter, calls: seq<MonitorCall>)

  /** The monitor after one more operation. */
  function Record(m: Monitor, call: MonitorCall): (m': Monitor)
    ensures m'.filter == m.filter
    ensures |m'.calls| == |m.calls| + 1 && m'.calls[..|m.calls|] == m.calls && m'.calls[|m.calls|] == call
  {
    m.(calls := m.calls + [call])
  }

  /** The HRESULT an operation returns, given the monitor it is invoked on. */
  type MonitorOracle = (Monitor, MonitorCall) -> HResult

  /** The metadata store operations that change its state. */
  datatype MetadataCall = Index | IndexPath(path: string) | Save(path: string)

  /** The HRESULT a store operation returns, given the operations invoked on the store before. */
  type MetadataOracle = (seq<MetadataCall>, MetadataCall) -> HResult

  // ---------------------------------------------------------------------------
  // The session

  /** The extension's process-wide state: zero or one active monitor, and the metadata store. */
  class Session {
    var active: Option<Monitor>
    var metadata: seq<MetadataCall>

    constructor ()
      ensures active == None && metadata == []
    {
      active := None;
      metadata := [];
    }

    /** Tears the monitor down; with none active there is nothing to do. */
    method Detach()
      modifies this
      ensures active == None && metadata == old(metadata)
    {
      active := None;
    }

    /** The host unloads the extension: the session detaches whatever its state. */
    method Uninitialize()
      modifies this
      ensures active == None && metadata == old(metadata)
    {
      Detach();
    }

    /**
     * `!comon`: with a monitor, `pause`, `resume`, `status` and `detach` are accepted
     * and `attach` fails; without one, only `attach` is, which installs a monitor
     * with the filter the remaining tokens describe.
     */
    method Comon(args: string, parse: GuidParser) returns (hr: HResult)
      modifies this
      ensures metadata == old(metadata)
      ensures Tokens(args) == [] ==> hr == InvalidArg && active == old(active)
      ensures Tokens(args) != [] && old(active).None? ==>
        var v := Tokens(args);
        if v[0] == "attach" then hr == Ok && active == Some(Monitor(FilterOf(v[1..], parse), []))
        else hr == Fail && active == None
      ensures Tokens(args) != [] && old(active).Some? ==>
        var v, m := Tokens(args), old(active).value;
        if v[0] == "attach" then hr == Fail && active == old(active)
        else if v[0] == "pause" then hr == Ok && active == Some(Record(m, Pause))
        else if v[0] == "resume" then hr == Ok && active == Some(Record(m, Resume))
        else if v[0] == "detach" then hr == Ok && active == None
        else if v[0] == "status" then hr == Ok && active == old(active)
        else hr == InvalidArg && active == old(active)
    {
      var vargs := SplitArgs(args);
      if |vargs| < 1 {
        return InvalidArg;
      }
      if active.Some? {
        var monitor := active.value;
        if vargs[0] == "attach" {
          return Fail;
        } else if vargs[0] == "pause" {
          active := Some(Record(monitor, Pause));
        } else if vargs[0] == "resume" {
          active := Some(Record(monitor, Resume));
        } else if vargs[0] == "detach" {
          Detach();
        } else if vargs[0] == "status" {
          // reports the monitor's state and recorded types; changes nothing
        } else {
          return InvalidArg;
        }
        return Ok;
      } else if vargs[0] == "attach" {
        var filter := ParseFilter(vargs[1..], parse);
        active := Some(Monitor(filter, []));
        return Ok;
      } else {
        return Fail;
      }
    }

    /**
     * `!cobp <clsid> <iid> <method>`: asks the monitor for a breakpoint on a method
     * given by index when the third token is a number, by name otherwise.
     */
    method Cobp(args: string, parse: GuidParser, respond: MonitorOracle) returns (hr: HResult)
      modifies this
      ensures metadata == old(metadata)
      ensures var v := Tokens(args);
        if |v| < 3 then hr == InvalidArg && active == old(active)
        else if parse(v[0]).None? || parse(v[1]).None? then hr == GuidParseFailure && active == old(active)
        else if old(active).None? then hr == Fail && active == None
        else
          var call := CreateBreakpoint(parse(v[0]).value, parse(v[1]).value, Selector(v[2]));
          hr == respond(old(active).value, call) && active == Some(Record(old(active).value, call))
    {
      var vargs := SplitArgs(args);
      if |vargs| < 3 {
        return InvalidArg;
      }
      var clsid := parse(vargs[0]);
      if clsid.None? {
        return GuidParseFailure;
      }
      var iid := parse(vargs[1]);
      if iid.None? {
        return GuidParseFailure;
      }
      if active.Some? {
        var monitor := active.value;
        var call: MonitorCall;
        match ParseUnsigned(vargs[2]) {
          case Some(n) =>
            call := CreateBreakpoint(clsid.value, iid.value, ByIndex(n));
          case None =>
            call := CreateBreakpoint(clsid.value, iid.value, ByName(vargs[2]));
        }
        hr := respond(monitor, call);
        active := Some(Record(monitor, call));
      } else {
        return Fail;
      }
    }

    /** `!cobl`: lists the monitor's breakpoints; fails without a monitor. */
    method Cobl() returns (hr: HResult)
      ensures hr == (if active.Some? then Ok else Fail)
    {
      if active.Some? {
        return Ok;
      } else {
        return Fail;
      }
    }

    /** `!cobd <id>`: asks the monitor to remove a breakpoint; the argument text is not tokenized. */
    method Cobd(args: string, respond: MonitorOracle) returns (hr: HResult)
      modifies this
      ensures metadata == old(metadata)
      ensures old(active).None? ==> hr == Fail && active == None
      ensures old(active).Some? && ParseUnsigned(args).None? ==>
        hr == InvalidArgumentThrown && active == old(active)
      ensures old(active).Some? && ParseUnsigned(args).Some? ==>
        var call := RemoveBreakpoint(ParseUnsigned(args).value);
        hr == respond(old(active).value, call) && active == Some(Record(old(active).value, call))
    {
      if active.Some? {
        var monitor := active.value;
        var id := ParseUnsigned(args);
        if id.None? {
          return InvalidArgumentThrown;
        }
        var call := RemoveBreakpoint(id.value);
        hr := respond(monitor, call);
        active := Some(Record(monitor, call));
      } else {
        return Fail;
      }
    }

    /** `!coreg <clsid> <iid> <address>`: registers a vtable with the monitor, always as 32-bit. */
    method Coreg(args: string, parse: GuidParser, respond: MonitorOracle) returns (hr: HResult)
      modifies this
      ensures metadata == old(metadata)
      ensures var v := Tokens(args);
        if |v| < 3 then hr == InvalidArg && active == old(active)
        else if parse(v[0]).None? || parse(v[1]).None? then hr == GuidParseFailure && active == old(active)
        else if old(active).None? then hr == Fail && active == None
        else if ParseUnsigned(v[2]).None? then hr == InvalidArgumentThrown && active == old(active)
        else
          var call := RegisterVtable(parse(v[0]).value, parse(v[1]).value, ParseUnsigned(v[2]).value, false);
          hr == respond(old(active).value, call) && active == Some(Record(old(active).value, call))
    {
      var vargs := SplitArgs(args);
      if |vargs| < 3 {
        return InvalidArg;
      }
      var clsid := parse(vargs[0]);
      if clsid.None? {
        return GuidParseFailure;
      }
      var iid := parse(vargs[1]);
      if iid.None? {
        return GuidParseFailure;
      }
      if active.Some? {
        var monitor := active.value;
        var address := ParseUnsigned(vargs[2]);
        if address.None? {
          return InvalidArgumentThrown;
        }
        var call := RegisterVtable(clsid.value, iid.value, address.value, false);
        hr := respond(monitor, call);
        active := Some(Record(monitor, call));
      } else {
        return Fail;
      }
    }

    /**
     * `!cometa`: works on the metadata store whether or not a monitor is active.
     * `index` takes an optional path, `save` exactly one; `showi` and `showc` need
     * exactly one GUID and only read the store.
     */
    method Cometa(args: string, parse: GuidParser, respond: MetadataOracle) returns (hr: HResult)
      modifies this
      ensures active == old(active)
      ensures var v := Tokens(args);
        if v == [] then hr == InvalidArg && metadata == old(metadata)
        else if v[0] == "index" then
          var call := if |v| == 1 then Index else IndexPath(v[1]);
          hr == respond(old(metadata), call) && metadata == old(metadata) + [call]
        else if v[0] == "save" && |v| == 2 then
          hr == respond(old(metadata), Save(v[1])) && metadata == old(metadata) + [Save(v[1])]
        else if (v[0] == "showi" || v[0] == "showc") && |v| == 2 && parse(v[1]).Some? then
          hr == Ok && metadata == old(metadata)
        else hr == InvalidArg && metadata == old(metadata)
    {
      var vargs := SplitArgs(args);
      if |vargs| == 0 {
        return InvalidArg;
      }
      if vargs[0] == "index" {
        var call := if |vargs| == 1 then Index else IndexPath(vargs[1]);
        hr := respond(metadata, call);
        metadata := metadata + [call];
      } else if vargs[0] == "save" {
        if |vargs| != 2 {
          return InvalidArg;
        }
        hr := respond(metadata, Save(vargs[1]));
        metadata := metadata + [Save(vargs[1])];
      } else if vargs[0] == "showi" || vargs[0] == "showc" {
        if |vargs| != 2 {
          return InvalidArg;
        }
        if parse(vargs[1]).None? {
          return InvalidArg;
        }
        // prints what the store knows about the GUID and its registered vtables
        return Ok;
      } else {
        return InvalidArg;
      }
    }
  }

  // ---------------------------------------------------------------------------
  // What a caller of the commands can rely on

  /** A second `attach` is refused whatever filter either one gives. */
  method AttachIsExclusive(first: string, second: string, parse: GuidParser)
    returns (r1: HResult, r2: HResult, attached: Option<Monitor>)
    requires Tokens(first) != [] && Tokens(first)[0] == "attach"
    requires Tokens(second) != [] && Tokens(second)[0] == "attach"
    ensures r1 == Ok && r2 == Fail
    ensures attached == Some(Monitor(FilterOf(Tokens(first)[1..], parse), []))
  {
    var session := new Session();
    r1 := session.Comon(first, parse);
    r2 := session.Comon(second, parse);
    attached := session.active;
  }

  /**
   * attach, pause, resume, detach, detach: everything succeeds but the last detach,
   * which finds no monitor; the monitor saw exactly one pause and one resume.
   */
  method Lifecycle(attach: string, pause: string, resume: string, detach: string, parse: GuidParser)
    returns (results: seq<HResult>, calls: seq<MonitorCall>, attached: bool)
    requires Tokens(attach) != [] && Tokens(attach)[0] == "attach"
    requires Tokens(pause) != [] && Tokens(pause)[0] == "pause"
    requires Tokens(resume) != [] && Tokens(resume)[0] == "resume"
    requires Tokens(detach) != [] && Tokens(detach)[0] == "detach"
    ensures results == [Ok, Ok, Ok, Ok, Fail]
    ensures calls == [Pause, Resume]
    ensures !attached
  {
    var session := new Session();
    var r1 := session.Comon(attach, parse);
    var r2 := session.Comon(pause, parse);
    var r3 := session.Comon(resume, parse);
    calls := session.active.value.calls;
    var r4 := session.Comon(detach, parse);
    var r5 := session.Comon(detach, parse);
    session.Uninitialize();
    results := [r1, r2, r3, r4, r5];
    attached := session.active.Some?;
  }

  /** Before any attach, the breakpoint and registration commands never reach a monitor. */
  method NothingWithoutMonitor(args: string, parse: GuidParser, respond: MonitorOracle)
    returns (bp: HResult, list: HResult, remove: HResult, reg: HResult, attached: Option<Monitor>)
    ensures bp in {InvalidArg, GuidParseFailure, Fail}
    ensures list == Fail && remove == Fail
    ensures reg in {InvalidArg, GuidParseFailure, Fail}
    ensures attached == None
  {
    var session := new Session();
    bp := session.Cobp(args, parse, respond);
    list := session.Cobl();
    remove := session.Cobd(args, respond);
    reg := session.Coreg(args, parse, respond);
    attached := session.active;
  }
}
