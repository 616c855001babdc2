/**
 * The command-line handling of the DRP executable (`psdaq/drp/drp.cc`):
 * the `-k key=value,key=value` keyword-argument parser `get_kwargs`, the
 * `-P` instrument truncation at the station suffix, the mandatory
 * parameters and the `<detName>_<detSegment>` alias split of `main`.
 *
 * Exceptions raised before `main`'s `try` block (a `get_kwargs` rejection,
 * an alias suffix `std::stoi` cannot read) are not caught and end the
 * process; the model reports them as `Terminate`.
 */
module DrpMain {
  import opened Text

  // ---------------------------------------------------------------------
  // std::stoi
  // ---------------------------------------------------------------------

  const INT_MIN: int := -0x8000_0000
  const INT_MAX: int := 0x7FFF_FFFF

  /** The characters `isspace` accepts in the C locale. */
  predicate IsSpace(c: char)
  {
    c == ' ' || 9 <= c as int <= 13
  }

  /** The number of leading characters satisfying `isspace`. */
  function LeadingSpaces(s: string): (n: nat)
    ensures n <= |s|
    ensures forall i :: 0 <= i < n ==> IsSpace(s[i])
    ensures n < |s| ==> !IsSpace(s[n])
  {
    if s == [] || !IsSpace(s[0]) then 0 else 1 + LeadingSpaces(s[1..])
  }

  /** The number of leading decimal digits. */
  function DigitRun(s: string): (n: nat)
    ensures n <= |s|
    ensures forall i :: 0 <= i < n ==> IsDigit(s[i])
    ensures n < |s| ==> !IsDigit(s[n])
  {
    if s == [] || !IsDigit(s[0]) then 0 else 1 + DigitRun(s[1..])
  }

  /** What `std::stoi` returns or throws. */
  datatype IntResult = IntValue(v: int) | InvalidArgument | OutOfRange

  /**
   * `std::stoi(s)`: leading white space skipped, an optional sign, then the
   * longest run of digits; no digit throws `invalid_argument`, a value
   * outside `int` throws `out_of_range`, anything after the digits is ignored.
   */
  function Stoi(s: string): (r: IntResult)
    ensures r.IntValue? ==> INT_MIN <= r.v <= INT_MAX
  {
    var t := s[LeadingSpaces(s)..];
    var signed := |t| > 0 && (t[0] == '-' || t[0] == '+');
    var u := if signed then t[1..] else t;
    var n := DigitRun(u);
    if n == 0 then InvalidArgument
    else
      var magnitude: int := ParseDecimal(u[..n]);
      var v := if signed && t[0] == '-' then -magnitude else magnitude;
      if v < INT_MIN || v > INT_MAX then OutOfRange else IntValue(v)
  }

  /** A rendered number is all digits. */
  lemma DecimalIsDigitRun(n: nat)
    ensures DigitRun(Decimal(n)) == |Decimal(n)|
  {
    var s := Decimal(n);
    assert forall i :: 0 <= i < |s| ==> IsDigit(s[i]);
  }

  /**
   * `std::stoi` reads back every rendered `int`, also when non-digit text
   * follows it.
   */
  lemma StoiReadsDecimal(n: nat, rest: string)
    requires n <= INT_MAX
    requires rest == [] || !IsDigit(rest[0])
    ensures Stoi(Decimal(n) + rest) == IntValue(n)
  {
    var d := Decimal(n);
    var s := d + rest;
    assert s[0] == d[0];
    assert IsDigit(s[0]);
    assert LeadingSpaces(s) == 0;
    assert s[0..] == s;
    var m := DigitRun(s);
    DecimalIsDigitRun(n);
    assert forall i :: 0 <= i < |d| ==> IsDigit(s[i]);
    if rest != [] {
      assert s[|d|] == rest[0];
    }
    assert m == |d|;
    assert s[..m] == d;
    DecimalRoundTrip(n);
  }

  /** Text with no digit after its sign cannot be read. */
  lemma StoiRejectsNoDigits(s: string)
    requires forall i :: 0 <= i < |s| ==> !IsDigit(s[i])
    ensures Stoi(s) == InvalidArgument
  {
    var t := s[LeadingSpaces(s)..];
    var signed := |t| > 0 && (t[0] == '-' || t[0] == '+');
    var u := if signed then t[1..] else t;
    if |u| > 0 {
      assert u[0] in s;
    }
  }

  // ---------------------------------------------------------------------
  // get_kwargs
  // ---------------------------------------------------------------------

  /**
   * The tokens `getline(ss, kwarg, ',')` produces: the pieces between
   * commas, except that a final empty piece (an empty string, or one
   * ending in a comma) is not produced.
   */
  function GetlineTokens(s: string): (toks: seq<string>)
    ensures toks == [] <==> s == []
    ensures forall i :: 0 <= i < |toks| ==> ',' !in toks[i]
  {
    SplitPartsFree(s, ',');
    SplitLastEmpty(s, ',');
    var parts := Split(s, ',');
    if parts[|parts| - 1] == [] then parts[..|parts| - 1] else parts
  }

  /** The last piece of a split is empty only for an empty string or a trailing separator. */
  lemma {:induction false} SplitLastEmpty(s: string, c: char)
    ensures Split(s, c)[|Split(s, c)| - 1] == [] ==> s == [] || s[|s| - 1] == c
    decreases |s|
  {
    var k := IndexOf(s, c);
    if k < |s| {
      var rest := s[k + 1..];
      SplitLastEmpty(rest, c);
      var parts := Split(s, c);
      assert parts == [s[..k]] + Split(rest, c);
      assert parts[|parts| - 1] == Split(rest, c)[|Split(rest, c)| - 1];
      if rest != [] {
        assert s[|s| - 1] == rest[|rest| - 1];
      }
    }
  }

  /**
   * No token holds a comma, and a string that does not end in a comma is
   * the tokens joined by commas again.
   */
  lemma GetlineTokensJoin(s: string)
    ensures forall t :: t in GetlineTokens(s) ==> ',' !in t
    ensures s != [] && s[|s| - 1] != ',' ==> Join(GetlineTokens(s), ',') == s
  {
    var parts := Split(s, ',');
    SplitPartsFree(s, ',');
    SplitJoin(s, ',');
    SplitLastEmpty(s, ',');
    forall t | t in GetlineTokens(s) ensures ',' !in t {
      assert t in parts;
    }
  }

  /** The `std::remove` / `erase` idiom: every space deleted, the rest kept in order. */
  function RemoveSpaces(t: string): (r: string)
    ensures ' ' !in r && |r| <= |t|
    ensures ' ' !in t ==> r == t
    ensures forall c :: c != ' ' ==> multiset(r)[c] == multiset(t)[c]
  {
    if t == [] then []
    else
      assert t == [t[0]] + t[1..];
      if t[0] == ' ' then RemoveSpaces(t[1..]) else [t[0]] + RemoveSpaces(t[1..])
  }

  /** Deleting spaces from a concatenation deletes them from each part. */
  lemma {:induction false} RemoveSpacesAppend(a: string, b: string)
    ensures RemoveSpaces(a + b) == RemoveSpaces(a) + RemoveSpaces(b)
  {
    if a != [] {
      assert (a + b)[0] == a[0];
      assert (a + b)[1..] == a[1..] + b;
      RemoveSpacesAppend(a[1..], b);
    } else {
      assert a + b == b;
    }
  }

  /** One token after space removal: its key and value, or `=` as its first character. */
  datatype Kwarg = KeyValue(key: string, value: string) | NoKey

  /**
   * `get_kwargs` on one token. The text before the first `=` is the key and
   * the text after it the value; with no `=` at all `find` returns `npos`,
   * `npos + 1` wraps to 0, and key and value are both the whole token.
   */
  function ParseKwarg(token: string): (r: Kwarg)
    ensures r.NoKey? <==> |RemoveSpaces(token)| > 0 && RemoveSpaces(token)[0] == '='
    ensures r.KeyValue? ==> '=' !in r.key && ' ' !in r.key && ' ' !in r.value
    ensures r.KeyValue? && '=' in RemoveSpaces(token) ==> RemoveSpaces(token) == r.key + "=" + r.value
  {
    var k := RemoveSpaces(token);
    var pos := IndexOf(k, '=');
    if pos < |k| && pos == 0 then NoKey
    else if pos == |k| then KeyValue(k, k)
    else KeyValue(k[..pos], k[pos + 1..])
  }

  /** A key without `=`, `=`, then any value (which may itself hold `=`) parse back to that key and value. */
  lemma KwargRoundTrip(key: string, value: string)
    requires key != [] && '=' !in key && ' ' !in key && ' ' !in value
    ensures ParseKwarg(key + "=" + value) == KeyValue(key, value)
  {
    var t := key + "=" + value;
    assert ' ' !in t by {
      forall i | 0 <= i < |t| ensures t[i] != ' ' {
        if i < |key| { assert t[i] == key[i]; }
        else if i > |key| { assert t[i] == value[i - |key| - 1]; }
      }
    }
    var pos := IndexOf(t, '=');
    assert t[|key|] == '=';
    assert forall i :: 0 <= i < |key| ==> t[i] == key[i];
    assert pos == |key|;
    assert t[..pos] == key;
    assert t[pos + 1..] == value;
  }

  /** A token with no `=` is its own key and value; one whose first non-space is `=` is rejected. */
  lemma KwargWithoutEquals(token: string)
    ensures '=' !in RemoveSpaces(token) ==> ParseKwarg(token) == KeyValue(RemoveSpaces(token), RemoveSpaces(token))
    ensures ParseKwarg(token).NoKey? <==> |RemoveSpaces(token)| > 0 && RemoveSpaces(token)[0] == '='
  {
  }

  /** `get_kwargs` returns normally with the new map, or throws. */
  datatype KwargsOutcome = Kwargs(table: map<string, string>) | KwargsThrown

  /** `get_kwargs` over the tokens handled so far: each key stored, later keys overwriting earlier ones. */
  function KwargsSpec(m: map<string, string>, toks: seq<string>): (r: KwargsOutcome)
    ensures r.Kwargs? ==> m.Keys <= r.table.Keys
    ensures r.Kwargs? && toks != [] ==>
      var last := ParseKwarg(toks[|toks| - 1]);
      last.KeyValue? && last.key in r.table && r.table[last.key] == last.value
  {
    if toks == [] then Kwargs(m)
    else
      var r := KwargsSpec(m, toks[..|toks| - 1]);
      if r.KwargsThrown? then r
      else match ParseKwarg(toks[|toks| - 1]) {
        case NoKey => KwargsThrown
        case KeyValue(k, v) => Kwargs(r.table[k := v])
      }
  }

  /** Once a token threw, the remaining tokens are not looked at. */
  lemma {:induction false} KwargsStops(m: map<string, string>, toks: seq<string>, i: nat)
    requires i <= |toks| && KwargsSpec(m, toks[..i]).KwargsThrown?
    ensures KwargsSpec(m, toks).KwargsThrown?
    decreases |toks|
  {
    if i < |toks| {
      var init := toks[..|toks| - 1];
      assert init[..i] == toks[..i];
      KwargsStops(m, init, i);
    } else {
      assert toks[..i] == toks;
    }
  }

  /** The `getline` loop of `get_kwargs`. */
  method GetKwargs(kwargs: map<string, string>, kwargsStr: string) returns (r: KwargsOutcome)
    ensures r == KwargsSpec(kwargs, GetlineTokens(kwargsStr))
  {
    var toks := GetlineTokens(kwargsStr);
    var m := kwargs;
    var i := 0;
    while i < |toks|
      invariant 0 <= i <= |toks|
      invariant KwargsSpec(kwargs, toks[..i]) == Kwargs(m)
    {
      assert toks[..i + 1][..i] == toks[..i];
      var kw := ParseKwarg(toks[i]);
      if kw.NoKey? {
        KwargsStops(kwargs, toks, i + 1);
        return KwargsThrown;
      }
      m := m[kw.key := kw.value];
      i := i + 1;
    }
    assert toks[..i] == toks;
    r := Kwargs(m);
  }

  /** Some token is rejected. */
  predicate SomeNoKey(toks: seq<string>)
  {
    exists i :: 0 <= i < |toks| && ParseKwarg(toks[i]).NoKey?
  }

  /** `get_kwargs` throws exactly when some token, spaces deleted, starts with `=`. */
  lemma {:induction false} KwargsThrowsIff(m: map<string, string>, toks: seq<string>)
    ensures KwargsSpec(m, toks).KwargsThrown? <==> SomeNoKey(toks)
  {
    if toks != [] {
      var init := toks[..|toks| - 1];
      KwargsThrowsIff(m, init);
      if SomeNoKey(init) {
        var i :| 0 <= i < |init| && ParseKwarg(init[i]).NoKey?;
        assert toks[i] == init[i];
      }
      if SomeNoKey(toks) && !ParseKwarg(toks[|toks| - 1]).NoKey? {
        var i :| 0 <= i < |toks| && ParseKwarg(toks[i]).NoKey?;
        assert init[i] == toks[i];
      }
    }
  }

  /** Token i sets key k. */
  predicate SetsKey(toks: seq<string>, i: nat, k: string)
    requires i < |toks|
  {
    ParseKwarg(toks[i]).KeyValue? && ParseKwarg(toks[i]).key == k
  }

  /** With no token rejected, the tokens so far are all rejected-free. */
  lemma NoKeyPrefix(toks: seq<string>)
    requires toks != [] && !SomeNoKey(toks)
    ensures !SomeNoKey(toks[..|toks| - 1])
  {
    var init := toks[..|toks| - 1];
    forall i | 0 <= i < |init| ensures !ParseKwarg(init[i]).NoKey? {
      assert init[i] == toks[i];
    }
  }

  /** When no token is rejected, a key holds the value of the last token i that names it. */
  lemma {:induction false} KwargsLastWins(m: map<string, string>, toks: seq<string>, k: string, i: nat)
    requires !SomeNoKey(toks) && i < |toks| && SetsKey(toks, i, k)
    requires forall j :: i < j < |toks| ==> !SetsKey(toks, j, k)
    ensures KwargsSpec(m, toks).Kwargs?
    ensures k in KwargsSpec(m, toks).table && KwargsSpec(m, toks).table[k] == ParseKwarg(toks[i]).value
  {
    KwargsThrowsIff(m, toks);
    var n := |toks| - 1;
    var init := toks[..n];
    NoKeyPrefix(toks);
    KwargsThrowsIff(m, init);
    var last := ParseKwarg(toks[n]);
    assert !last.NoKey?;
    assert KwargsSpec(m, toks) == Kwargs(KwargsSpec(m, init).table[last.key := last.value]);
    if i < n {
      assert init[i] == toks[i];
      forall j | i < j < |init| ensures !SetsKey(init, j, k) {
        assert init[j] == toks[j] && !SetsKey(toks, j, k);
      }
      KwargsLastWins(m, init, k, i);
      assert !SetsKey(toks, n, k);
    }
  }

  /** When no token is rejected, a key that no token names keeps its earlier value, or stays absent. */
  lemma {:induction false} KwargsUntouched(m: map<string, string>, toks: seq<string>, k: string)
    requires !SomeNoKey(toks)
    requires forall i :: 0 <= i < |toks| ==> !SetsKey(toks, i, k)
    ensures KwargsSpec(m, toks).Kwargs?
    ensures k in KwargsSpec(m, toks).table <==> k in m
    ensures k in m ==> KwargsSpec(m, toks).table[k] == m[k]
  {
    KwargsThrowsIff(m, toks);
    if toks != [] {
      var n := |toks| - 1;
      var init := toks[..n];
      NoKeyPrefix(toks);
      forall i | 0 <= i < |init| ensures !SetsKey(init, i, k) {
        assert init[i] == toks[i] && !SetsKey(toks, i, k);
      }
      KwargsUntouched(m, init, k);
      assert !SetsKey(toks, n, k);
    }
  }

  // ---------------------------------------------------------------------
  // main
  // ---------------------------------------------------------------------

  /** `unsigned(-1)`, the partition a parameter block holds until `-p` sets it. */
  const NO_PARTITION: nat := 0xFFFF_FFFF

  /** `-P`: the instrument name, cut at its first `:` (the station suffix). */
  function InstrumentOption(optarg: string): (r: string)
    ensures ':' !in r && |r| <= |optarg| && r == optarg[..|r|]
    ensures |r| < |optarg| ==> optarg[|r|] == ':'
    ensures ':' !in optarg ==> r == optarg
  {
    optarg[..IndexOf(optarg, ':')]
  }

  /** The parameter fields as the option loop leaves them. */
  datatype Options = Options(instrument: string, partition: nat, device: string, alias: string, kwargsStr: string)

  /** How the alias check ends. */
  datatype AliasOutcome = Alias(detName: string, detSegment: int) | NoSuffix | SegmentThrown

  /**
   * The alias must hold a `_` and end in a digit; `detName` is the text
   * before the last `_` and `detSegment` what `std::stoi` reads after it.
   */
  function SplitAlias(alias: string): (r: AliasOutcome)
    ensures r.NoSuffix? <==> alias == [] || '_' !in alias || !IsDigit(alias[|alias| - 1])
    ensures r.Alias? ==>
      (|r.detName| < |alias| && alias[..|r.detName|] == r.detName
       && alias[|r.detName|] == '_' && '_' !in alias[|r.detName| + 1..]
       && Stoi(alias[|r.detName| + 1..]) == IntValue(r.detSegment))
  {
    var found := LastIndexOf(alias, '_');
    if found == |alias| || !IsDigit(alias[|alias| - 1]) then NoSuffix
    else
      match Stoi(alias[found + 1..]) {
        case IntValue(v) => Alias(alias[..found], v)
        case _ => SegmentThrown
      }
  }

  /** `<name>_<n>` splits into name and n, whatever `_` the name holds. */
  lemma SplitAliasRoundTrip(name: string, n: nat)
    requires n <= INT_MAX
    ensures SplitAlias(name + "_" + Decimal(n)) == Alias(name, n)
  {
    var d := Decimal(n);
    var alias := name + "_" + d;
    assert forall i :: 0 <= i < |d| ==> d[i] != '_' by {
      forall i | 0 <= i < |d| ensures d[i] != '_' {
        assert IsDigit(d[i]);
      }
    }
    var found := LastIndexOf(alias, '_');
    assert alias[|name|] == '_';
    assert forall i :: |name| < i < |alias| ==> alias[i] == d[i - |name| - 1];
    assert found == |name|;
    assert alias[|alias| - 1] == d[|d| - 1];
    assert alias[..found] == name;
    assert alias[found + 1..] == d;
    StoiReadsDecimal(n, []);
    assert d + [] == d;
  }

  /** The parameters `main` hands to the application. */
  datatype DrpParams = DrpParams(
    instrument: string, partition: nat, device: string, alias: string,
    detName: string, detSegment: int, kwargs: map<string, string>,
    nworkers: nat, batchSize: nat, maxTrSize: nat, nTrBuffers: nat)

  /** How `main` ends before the application runs, or the parameters it runs with. */
  datatype MainOutcome = Exit(code: int) | Terminate | Run(para: DrpParams)

  /**
   * `main` after option parsing: the mandatory instrument, partition,
   * device and alias (each missing one returns 1), the alias split, the
   * keyword arguments, and the fixed worker and buffer settings.
   */
  function MainSpec(o: Options): (r: MainOutcome)
    ensures r.Exit? ==> r.code == 1
    ensures !r.Exit? ==> o.instrument != [] && o.partition != NO_PARTITION && o.device != [] && o.alias != []
    ensures r.Run? ==>
      && SplitAlias(o.alias) == Alias(r.para.detName, r.para.detSegment)
      && KwargsSpec(map[], GetlineTokens(o.kwargsStr)) == Kwargs(r.para.kwargs)
      && (r.para.instrument, r.para.partition, r.para.device, r.para.alias) == (o.instrument, o.partition, o.device, o.alias)
  {
    if o.instrument == [] || o.partition == NO_PARTITION || o.device == [] || o.alias == [] then Exit(1)
    else match SplitAlias(o.alias) {
      case NoSuffix => Exit(1)
      case SegmentThrown => Terminate
      case Alias(name, seg) =>
        match KwargsSpec(map[], GetlineTokens(o.kwargsStr)) {
          case KwargsThrown => Terminate
          case Kwargs(m) => Run(DrpParams(o.instrument, o.partition, o.device, o.alias, name, seg, m, 10, 32, 4 * 1024 * 1024, 8))
        }
    }
  }

  /** A missing mandatory parameter, or an alias without a `_N` suffix, makes `main` return 1. */
  lemma MainRejects(o: Options)
    ensures MainSpec(o) == Exit(1) <==>
      (o.instrument == [] || o.partition == NO_PARTITION || o.device == [] || o.alias == []
       || '_' !in o.alias || !IsDigit(o.alias[|o.alias| - 1]))
  {
  }

  /** `-P` with the station suffix at its start leaves no instrument, and `main` returns 1. */
  lemma StationOnlyInstrument(suffix: string, o: Options)
    requires o.instrument == InstrumentOption(":" + suffix)
    ensures MainSpec(o) == Exit(1)
  {
    assert (":" + suffix)[0] == ':';
  }

  /**
   * With every mandatory parameter given and a `<name>_<n>` alias, `main`
   * runs the application with that name and segment, unless a keyword
   * token is rejected; the keyword map is what `get_kwargs` builds.
   */
  lemma MainRuns(o: Options, name: string, n: nat)
    requires o.instrument != [] && o.partition != NO_PARTITION && o.device != []
    requires n <= INT_MAX && o.alias == name + "_" + Decimal(n)
    ensures MainSpec(o).Terminate? <==> SomeNoKey(GetlineTokens(o.kwargsStr))
    ensures MainSpec(o).Run? ==>
      (MainSpec(o).para.detName == name && MainSpec(o).para.detSegment == n
       && Kwargs(MainSpec(o).para.kwargs) == KwargsSpec(map[], GetlineTokens(o.kwargsStr))
       && MainSpec(o).para.instrument == o.instrument && MainSpec(o).para.partition == o.partition)
  {
    SplitAliasRoundTrip(name, n);
    KwargsThrowsIff(map[], GetlineTokens(o.kwargsStr));
  }
}
