/**
 * The CLSID filter given to `!comon attach` (the cofilter variant and the
 * parse_filter lambda in comon/ext.cpp). The tokens after `attach` are scanned
 * from the last one backwards; the first `-i` or `-e` met ends the scan, and only
 * the GUIDs collected before meeting it (that is, to its right) make up the set.
 */
module Filter {
  import opened Common

  /** Which CLSIDs a monitor observes: all, only those listed, or all but those listed. */
  datatype CoFilter = NoFilter | Including(clsids: set<Guid>) | Excluding(clsids: set<Guid>)

  predicate IsFlag(t: string)
  {
    t == "-i" || t == "-e"
  }

  /** The GUIDs that tokens of `ts` parse to; tokens that do not parse contribute nothing. */
  function GuidsOf(ts: seq<string>, parse: GuidParser): set<Guid>
  {
    set t | t in ts && parse(t).Some? :: parse(t).value
  }

  /** The position of the last flag token, if there is one. */
  function LastFlag(ts: seq<string>): (k: Option<nat>)
    ensures k.Some? ==>
      k.value < |ts| && IsFlag(ts[k.value]) && forall j :: k.value < j < |ts| ==> !IsFlag(ts[j])
    ensures k.None? ==> forall j :: 0 <= j < |ts| ==> !IsFlag(ts[j])
    decreases |ts|
  {
    if ts == [] then None
    else if IsFlag(ts[|ts| - 1]) then Some(|ts| - 1)
    else LastFlag(ts[..|ts| - 1])
  }

  /**
   * The filter the tokens after `attach` describe. The last flag decides the variant
   * and only the GUIDs after it count; with no flag, any GUIDs found make an
   * including filter and none make no filter.
   */
  function FilterOf(ts: seq<string>, parse: GuidParser): CoFilter
  {
    match LastFlag(ts)
    case Some(k) =>
      var found := GuidsOf(ts[k + 1..], parse);
      if ts[k] == "-i" then Including(found) else Excluding(found)
    case None =>
      var found := GuidsOf(ts, parse);
      if found == {} then NoFilter else Including(found)
  }

  lemma GuidsOfAppend(a: seq<string>, b: seq<string>, parse: GuidParser)
    ensures GuidsOf(a + b, parse) == GuidsOf(a, parse) + GuidsOf(b, parse)
  {
    forall g | g in GuidsOf(a + b, parse)
      ensures g in GuidsOf(a, parse) + GuidsOf(b, parse)
    {
      var t :| t in a + b && parse(t).Some? && parse(t).value == g;
      if t in a {
        assert g in GuidsOf(a, parse);
      } else {
        assert g in GuidsOf(b, parse);
      }
    }
  }

  lemma GuidsOfCons(t: string, rest: seq<string>, parse: GuidParser)
    ensures GuidsOf([t] + rest, parse)
         == GuidsOf(rest, parse) + (if parse(t).Some? then {parse(t).value} else {})
  {
    GuidsOfAppend([t], rest, parse);
    if parse(t).Some? {
      assert parse(t).value in GuidsOf([t], parse);
    }
  }

  /** The scan as the source runs it: from the last token backwards, stopping at the first flag. */
  method ParseFilter(args: seq<string>, parse: GuidParser) returns (filter: CoFilter)
    ensures filter == FilterOf(args, parse)
  {
    var clsids: set<Guid> := {};
    var i := |args|;
    while i > 0
      invariant 0 <= i <= |args|
      invariant forall j :: i <= j < |args| ==> !IsFlag(args[j])
      invariant clsids == GuidsOf(args[i..], parse)
    {
      i := i - 1;
      var t := args[i];
      if t == "-i" {
        return Including(clsids);
      }
      if t == "-e" {
        return Excluding(clsids);
      }
      GuidsOfCons(t, args[i + 1..], parse);
      assert args[i..] == [t] + args[i + 1..];
      var g := parse(t);
      if g.Some? {
        clsids := clsids + {g.value};
      }
    }
    if |clsids| > 0 {
      return Including(clsids);
    }
    return NoFilter;
  }

  // ---------------------------------------------------------------------------
  // Properties of the filter description

  /** A flag in `v` is found in `u + v` at the same place, shifted; otherwise `u` decides. */
  lemma {:induction false} LastFlagAppend(u: seq<string>, v: seq<string>)
    ensures LastFlag(u + v)
         == if LastFlag(v).Some? then Some(|u| + LastFlag(v).value) else LastFlag(u)
    decreases |v|
  {
    var w := u + v;
    if v == [] {
      assert w == u;
    } else {
      var last := |v| - 1;
      assert w[|w| - 1] == v[last];
      if !IsFlag(v[last]) {
        assert w[..|w| - 1] == u + v[..last];
        LastFlagAppend(u, v[..last]);
      }
    }
  }

  /** With a flag among the tokens, everything left of the last flag has no effect. */
  lemma LeftOfFlagIgnored(left: seq<string>, right: seq<string>, parse: GuidParser)
    requires exists j :: 0 <= j < |right| && IsFlag(right[j])
    ensures FilterOf(left + right, parse) == FilterOf(right, parse)
  {
    LastFlagAppend(left, right);
    var k := LastFlag(right).value;
    assert (left + right)[|left| + k + 1..] == right[k + 1..];
    assert (left + right)[|left| + k] == right[k];
  }

  /** FilterOf, with `extra` GUIDs contributed by flag-free tokens that follow `ts`. */
  ghost function FilterPlus(ts: seq<string>, parse: GuidParser, extra: set<Guid>): CoFilter
  {
    match LastFlag(ts)
    case Some(k) =>
      var found := GuidsOf(ts[k + 1..], parse) + extra;
      if ts[k] == "-i" then Including(found) else Excluding(found)
    case None =>
      var found := GuidsOf(ts, parse) + extra;
      if found == {} then NoFilter else Including(found)
  }

  /** Flag-free trailing tokens only add their GUIDs to whatever set is being built. */
  lemma FlagFreeSuffix(p: seq<string>, s: seq<string>, parse: GuidParser, extra: set<Guid>)
    requires LastFlag(s).None?
    ensures FilterPlus(p + s, parse, extra) == FilterPlus(p, parse, GuidsOf(s, parse) + extra)
  {
    LastFlagAppend(p, s);
    match LastFlag(p) {
      case Some(k) =>
        assert (p + s)[k + 1..] == p[k + 1..] + s;
        assert (p + s)[k] == p[k];
        GuidsOfAppend(p[k + 1..], s, parse);
      case None =>
        GuidsOfAppend(p, s, parse);
    }
  }

  /**
   * Flag-free stretches of tokens that parse to the same GUIDs are interchangeable:
   * the order of GUIDs, duplicates and tokens that are not GUIDs never change the filter.
   */
  lemma SameGuidsSameFilter(a: seq<string>, x: seq<string>, y: seq<string>, b: seq<string>, parse: GuidParser)
    requires forall j :: 0 <= j < |x| ==> !IsFlag(x[j])
    requires forall j :: 0 <= j < |y| ==> !IsFlag(y[j])
    requires GuidsOf(x, parse) == GuidsOf(y, parse)
    ensures FilterOf(a + x + b, parse) == FilterOf(a + y + b, parse)
  {
    if LastFlag(b).Some? {
      assert IsFlag(b[LastFlag(b).value]);
      LeftOfFlagIgnored(a + x, b, parse);
      LeftOfFlagIgnored(a + y, b, parse);
    } else {
      var gb := GuidsOf(b, parse);
      assert FilterOf(a + x + b, parse) == FilterPlus(a + x + b, parse, {});
      assert FilterOf(a + y + b, parse) == FilterPlus(a + y + b, parse, {});
      FlagFreeSuffix(a + x, b, parse, {});
      FlagFreeSuffix(a + y, b, parse, {});
      assert gb + {} == gb;
      assert LastFlag(x).None? && LastFlag(y).None?;
      FlagFreeSuffix(a, x, parse, gb);
      FlagFreeSuffix(a, y, parse, gb);
    }
  }

  /** A token that is neither a flag nor a GUID is skipped. */
  lemma UnparsedTokenIgnored(a: seq<string>, t: string, b: seq<string>, parse: GuidParser)
    requires !IsFlag(t) && parse(t).None?
    ensures FilterOf(a + [t] + b, parse) == FilterOf(a + b, parse)
  {
    assert GuidsOf([t], parse) == {};
    SameGuidsSameFilter(a, [t], [], b, parse);
    assert a + [] + b == a + b;
  }

  /** A GUID given twice counts once. */
  lemma DuplicateGuidCollapses(a: seq<string>, t: string, b: seq<string>, parse: GuidParser)
    requires !IsFlag(t)
    ensures FilterOf(a + [t, t] + b, parse) == FilterOf(a + [t] + b, parse)
  {
    GuidsOfAppend([t], [t], parse);
    assert [t] + [t] == [t, t];
    SameGuidsSameFilter(a, [t, t], [t], b, parse);
  }

  /** `<guid> -i`: the flag is met first, before the GUID, so the including set is empty. */
  lemma GuidThenInclude(g: string, parse: GuidParser)
    ensures FilterOf([g, "-i"], parse) == Including({})
  {
    assert [g, "-i"][2..] == [];
  }

  /** `-e <guid>`: the GUID is collected before the flag is met, so it is excluded. */
  lemma ExcludeThenGuid(g: string, parse: GuidParser)
    requires !IsFlag(g) && parse(g).Some?
    ensures FilterOf(["-e", g], parse) == Excluding({parse(g).value})
  {
    assert ["-e", g][..1] == ["-e"];
    assert LastFlag(["-e", g]) == Some(0);
    assert ["-e", g][1..] == [g] == [g] + [];
    GuidsOfCons(g, [], parse);
  }

  /** No flag and no GUID: nothing is filtered. */
  lemma NoFlagNoGuid(ts: seq<string>, parse: GuidParser)
    requires forall j :: 0 <= j < |ts| ==> !IsFlag(ts[j]) && parse(ts[j]).None?
    ensures FilterOf(ts, parse) == NoFilter
  {
    assert GuidsOf(ts, parse) == {};
  }
}
