/** The propagation of the trace header into an outgoing queue message: the
    index allocation for the `MessageSystemAttribute.<n>.*` parameters and the
    three parameters written at that index. */
module TraceHeaderInjection {
  import opened Common
  import opened Int32Text
  import opened Names

  /** `TraceHeader.HeaderKey` of the X-Ray SDK. */
  const TraceHeaderKey: string := "X-Amzn-Trace-Id"
  const SystemAttributePrefix: string := "MessageSystemAttribute"
  const TraceHeaderAttributeName: string := "AWSTraceHeader"

  predicate IsSystemAttributeKey(key: string) {
    StartsWith(key, SystemAttributePrefix)
  }

  /** The text after the first '.', if there is one. */
  function AfterDot(s: string): (r: Option<string>)
    ensures r.None? <==> '.' !in s
    ensures r.Some? ==> |r.value| < |s| && s[|s| - |r.value| - 1] == '.' && s[|s| - |r.value|..] == r.value
    ensures r.Some? ==> '.' !in s[..|s| - |r.value| - 1]
  {
    if s == [] then None
    else if s[0] == '.' then
      assert s[..0] == [];
      Some(s[1..])
    else
      var t := s[1..];
      var r := AfterDot(t);
      if r.None? then
        assert s == [s[0]] + t;
        r
      else
        var j := |t| - |r.value| - 1;
        assert s[j + 1] == t[j] && s[j + 2..] == t[j + 1..];
        assert s[..j + 1] == [s[0]] + t[..j];
        r
  }

  /** The text up to the first '.', or all of it. */
  function BeforeDot(s: string): (r: string)
    ensures r <= s && '.' !in r
    ensures |r| == |s| || s[|r|] == '.'
  {
    if s == [] || s[0] == '.' then [] else [s[0]] + BeforeDot(s[1..])
  }

  /** `value.Split('.')[1]`: the second '.'-separated segment; `None` where indexing
      the split result at 1 is out of range, i.e. when `value` has no '.'. */
  function SecondSegment(value: string): (r: Option<string>)
    ensures r.None? <==> '.' !in value
    ensures r.Some? ==> '.' !in r.value
    ensures r.Some? ==>
              exists i :: 0 <= i < |value| && value[i] == '.' && '.' !in value[..i]
                          && i + 1 + |r.value| <= |value| && value[i + 1..i + 1 + |r.value|] == r.value
                          && (i + 1 + |r.value| == |value| || value[i + 1 + |r.value|] == '.')
  {
    match AfterDot(value)
    case None => None
    case Some(rest) =>
      var segment := BeforeDot(rest);
      var i := |value| - |rest| - 1;
      assert value[i + 1..] == rest;
      assert value[i + 1..i + 1 + |segment|] == rest[..|segment|];
      assert i + 1 + |segment| < |value| ==> value[i + 1 + |segment|] == rest[|segment|];
      Some(segment)
  }

  /** `int.TryParse(segment, out var idx) ? idx : 0`. */
  function ParsedIndex(value: string): (n: int)
    requires '.' in value
    ensures IsInt32(n)
  {
    match ParseInt32(SecondSegment(value).value)
    case Some(n) => n
    case None => 0
  }

  /** A system-attribute parameter whose value has no '.', on which the index
      computation throws `IndexOutOfRangeException`. */
  predicate Unsplittable(parameters: map<string, string>, key: string) {
    key in parameters && IsSystemAttributeKey(key) && '.' !in parameters[key]
  }

  predicate HasUnsplittable(parameters: map<string, string>) {
    exists key :: key in parameters && Unsplittable(parameters, key)
  }

  /** The numbers the maximum is taken over, for the parameters with keys in `keys`:
      0, and the parsed index of every system-attribute parameter's value. */
  function IndexCandidates(parameters: map<string, string>, keys: set<string>): (c: set<int>)
    ensures 0 in c
    ensures forall n :: n in c ==> IsInt32(n)
  {
    {0} + set key | key in keys && key in parameters && IsSystemAttributeKey(key) && '.' in parameters[key]
                  :: ParsedIndex(parameters[key])
  }

  /** A non-empty set has an element. */
  lemma Inhabited(s: set<int>) returns (y: int)
    requires s != {}
    ensures y in s
  {
    if forall z :: z !in s {
      assert false;
    }
    y :| y in s;
  }

  lemma {:induction false} MaxExists(s: set<int>)
    requires s != {}
    ensures exists m :: m in s && forall x :: x in s ==> x <= m
    decreases s
  {
    var y := Inhabited(s);
    var rest := s - {y};
    if rest == {} {
      assert s == {y};
    } else {
      MaxExists(rest);
      var m :| m in rest && forall x :: x in rest ==> x <= m;
      var best := if y > m then y else m;
      forall x | x in s ensures x <= best {
        if x != y { assert x in rest; }
      }
      assert best in s;
    }
  }

  /** The largest element of a finite non-empty set (LINQ `Max()`). */
  ghost function MaxOf(s: set<int>): (m: int)
    requires s != {}
    ensures m in s && forall x :: x in s ==> x <= m
  {
    MaxExists(s);
    var m :| m in s && forall x :: x in s ==> x <= m;
    m
  }

  /** Taking one more parameter into account adds its parsed index, if it has one. */
  lemma CandidatesStep(parameters: map<string, string>, done: set<string>, key: string)
    requires key in parameters
    ensures IsSystemAttributeKey(key) && '.' in parameters[key] ==>
              IndexCandidates(parameters, done + {key}) == IndexCandidates(parameters, done) + {ParsedIndex(parameters[key])}
    ensures !(IsSystemAttributeKey(key) && '.' in parameters[key]) ==>
              IndexCandidates(parameters, done + {key}) == IndexCandidates(parameters, done)
  {
  }

  /** The `Max()` of the index computation, over every parameter: throws when some
      system-attribute value has no '.', otherwise is the largest candidate. */
  method MaxSystemAttributeIndex(parameters: map<string, string>) returns (r: Result<int>)
    ensures r.Err? <==> HasUnsplittable(parameters)
    ensures r.Err? ==> r.error == IndexOutOfRange
    ensures r.Ok? ==> r.value == MaxOf(IndexCandidates(parameters, parameters.Keys))
  {
    var remaining := parameters.Keys;
    var best := 0;
    ghost var done: set<string> := {};
    while remaining != {}
      invariant done + remaining == parameters.Keys && done !! remaining
      invariant forall key :: key in done ==> !Unsplittable(parameters, key)
      invariant best in IndexCandidates(parameters, done)
      invariant forall c :: c in IndexCandidates(parameters, done) ==> c <= best
      decreases remaining
    {
      var key :| key in remaining;
      CandidatesStep(parameters, done, key);
      ghost var before := IndexCandidates(parameters, done);
      if IsSystemAttributeKey(key) {
        var segment := SecondSegment(parameters[key]);
        if segment.None? {
          assert Unsplittable(parameters, key);
          return Err(IndexOutOfRange);
        }
        var index := ParsedIndex(parameters[key]);
        if index > best {
          best := index;
        }
        assert IndexCandidates(parameters, done + {key}) == before + {index};
      } else {
        assert IndexCandidates(parameters, done + {key}) == before;
      }
      done := done + {key};
      remaining := remaining - {key};
    }
    ghost var all := IndexCandidates(parameters, parameters.Keys);
    assert done == parameters.Keys;
    assert best == MaxOf(all) by {
      var m := MaxOf(all);
      assert m <= best && best <= m;
    }
    return Ok(best);
  }

  function ParameterKey(index: int, suffix: string): string {
    SystemAttributePrefix + "." + FormatInt(index) + "." + suffix
  }

  /** The three parameters written at `index`, in the order they are added (the last
      key is built as "Value" + "." + "StringValue"). */
  function SystemAttributeEntries(index: int, header: string): seq<(string, string)> {
    [ (ParameterKey(index, "Name"), TraceHeaderAttributeName),
      (ParameterKey(index, "Value.DataType"), "String"),
      (ParameterKey(index, "Value.StringValue"), header) ]
  }

  /** Every key written by one injection is a system attribute key. */
  lemma EntriesAreSystemAttributes(index: int, header: string)
    ensures forall e :: e in SystemAttributeEntries(index, header) ==> IsSystemAttributeKey(e.0)
  {
    KeysAreSystemAttributes(index, "Name");
    KeysAreSystemAttributes(index, "Value.DataType");
    KeysAreSystemAttributes(index, "Value.StringValue");
  }

  /** Successive `Dictionary.Add` calls: the first key already present throws, and the
      entries added before it stay. */
  function AddAll(parameters: map<string, string>, entries: seq<(string, string)>): (r: (map<string, string>, Option<Exception>))
    ensures forall k :: k in parameters ==> k in r.0 && r.0[k] == parameters[k]
    ensures forall k :: k in r.0 && k !in parameters ==> (k, r.0[k]) in entries
    ensures r.1.Some? ==> exists i :: 0 <= i < |entries| && r.1 == Some(DuplicateKey(entries[i].0))
    decreases |entries|
  {
    if entries == [] then (parameters, None)
    else if entries[0].0 in parameters then (parameters, Some(DuplicateKey(entries[0].0)))
    else AddAll(parameters[entries[0].0 := entries[0].1], entries[1..])
  }

  /** The index the new parameters are written at: `Max() + 1`, unchecked. */
  ghost function NextIndex(parameters: map<string, string>): int {
    Int32Increment(MaxOf(IndexCandidates(parameters, parameters.Keys)))
  }

  /** The parameter map after the header `header` is injected, and what is thrown. */
  ghost function InjectedParameters(parameters: map<string, string>, header: string): (r: (map<string, string>, Option<Exception>))
    ensures forall k :: k in parameters ==> k in r.0 && r.0[k] == parameters[k]
    ensures forall k :: k in r.0 && k !in parameters ==> IsSystemAttributeKey(k)
    ensures r.1.Some? ==> r.1 == Some(IndexOutOfRange) || r.1.value.DuplicateKey?
  {
    if TraceHeaderAttributeName in parameters.Values then (parameters, None)
    else if HasUnsplittable(parameters) then (parameters, Some(IndexOutOfRange))
    else
      var index := NextIndex(parameters);
      EntriesAreSystemAttributes(index, header);
      AddAll(parameters, SystemAttributeEntries(index, header))
  }

  /** The three keys written at one index are distinct. */
  lemma EntryKeysDistinct(index: int)
    ensures ParameterKey(index, "Name") != ParameterKey(index, "Value.DataType")
    ensures ParameterKey(index, "Name") != ParameterKey(index, "Value.StringValue")
    ensures ParameterKey(index, "Value.DataType") != ParameterKey(index, "Value.StringValue")
  {
    var p := SystemAttributePrefix + "." + FormatInt(index) + ".";
    assert ParameterKey(index, "Name") == p + "Name";
    assert ParameterKey(index, "Value.DataType") == p + "Value.DataType";
    assert ParameterKey(index, "Value.StringValue") == p + "Value.StringValue";
    assert (p + "Name")[|p|] == 'N';
    assert (p + "Value.DataType")[|p|] == 'V';
    assert (p + "Value.DataType")[|p| + 6] == 'D';
    assert (p + "Value.StringValue")[|p| + 6] == 'S';
  }

  /** Three adds of distinct fresh keys all succeed. */
  lemma AddThreeFresh(parameters: map<string, string>, e: seq<(string, string)>)
    requires |e| == 3
    requires e[0].0 !in parameters && e[1].0 !in parameters && e[2].0 !in parameters
    requires e[0].0 != e[1].0 && e[0].0 != e[2].0 && e[1].0 != e[2].0
    ensures AddAll(parameters, e) == (parameters[e[0].0 := e[0].1][e[1].0 := e[1].1][e[2].0 := e[2].1], None)
  {
    var p1 := parameters[e[0].0 := e[0].1];
    var p2 := p1[e[1].0 := e[1].1];
    var p3 := p2[e[2].0 := e[2].1];
    var e1 := e[1..];
    var e2 := e1[1..];
    assert e2[1..] == [];
    assert AddAll(p2, e2) == AddAll(p3, []);
    assert AddAll(p1, e1) == AddAll(p2, e2);
  }

  /** When none of the three keys is present, exactly those three are added, with the
      trace header name, its data type and the header itself, and no other entry changes. */
  lemma InjectionAddsExactlyThree(parameters: map<string, string>, index: int, header: string)
    requires ParameterKey(index, "Name") !in parameters
    requires ParameterKey(index, "Value.DataType") !in parameters
    requires ParameterKey(index, "Value.StringValue") !in parameters
    ensures var (result, err) := AddAll(parameters, SystemAttributeEntries(index, header));
            && err.None?
            && result.Keys == parameters.Keys + {ParameterKey(index, "Name"), ParameterKey(index, "Value.DataType"),
                                                 ParameterKey(index, "Value.StringValue")}
            && |result| == |parameters| + 3
            && result[ParameterKey(index, "Name")] == "AWSTraceHeader"
            && result[ParameterKey(index, "Value.DataType")] == "String"
            && result[ParameterKey(index, "Value.StringValue")] == header
            && forall k :: k in parameters ==> result[k] == parameters[k]
  {
    var k0, k1, k2 := ParameterKey(index, "Name"), ParameterKey(index, "Value.DataType"), ParameterKey(index, "Value.StringValue");
    EntryKeysDistinct(index);
    var e := SystemAttributeEntries(index, header);
    assert e[0] == (k0, TraceHeaderAttributeName) && e[1] == (k1, "String") && e[2] == (k2, header);
    AddThreeFresh(parameters, e);
    ThreeFreshUpdates(parameters, k0, k1, k2, TraceHeaderAttributeName, "String", header);
  }

  /** Three updates at distinct fresh keys add exactly those keys and keep every other entry. */
  lemma ThreeFreshUpdates(parameters: map<string, string>, k0: string, k1: string, k2: string,
                          v0: string, v1: string, v2: string)
    requires k0 !in parameters && k1 !in parameters && k2 !in parameters
    requires k0 != k1 && k0 != k2 && k1 != k2
    ensures var r := parameters[k0 := v0][k1 := v1][k2 := v2];
            && r.Keys == parameters.Keys + {k0, k1, k2}
            && |r| == |parameters| + 3
            && r[k0] == v0 && r[k1] == v1 && r[k2] == v2
            && forall k :: k in parameters ==> r[k] == parameters[k]
  {
    assert |parameters[k0 := v0]| == |parameters| + 1;
    assert |parameters[k0 := v0][k1 := v1]| == |parameters| + 2;
  }

  /** Without any system-attribute parameter the index is 1. */
  lemma NoSystemAttributesGivesIndexOne(parameters: map<string, string>)
    requires forall k :: k in parameters ==> !IsSystemAttributeKey(k)
    ensures !HasUnsplittable(parameters)
    ensures NextIndex(parameters) == 1
  {
    assert IndexCandidates(parameters, parameters.Keys) == {0};
  }

  /** Without any system-attribute parameter or trace header name, the three
      parameters are added at index 1, where none of their keys is present. */
  lemma InjectionAtIndexOne(parameters: map<string, string>, header: string)
    requires TraceHeaderAttributeName !in parameters.Values
    requires forall k :: k in parameters ==> !IsSystemAttributeKey(k)
    ensures InjectedParameters(parameters, header) == AddAll(parameters, SystemAttributeEntries(1, header))
    ensures ParameterKey(1, "Name") !in parameters
    ensures ParameterKey(1, "Value.DataType") !in parameters
    ensures ParameterKey(1, "Value.StringValue") !in parameters
  {
    NoSystemAttributesGivesIndexOne(parameters);
    KeysAreSystemAttributes(1, "Name");
    KeysAreSystemAttributes(1, "Value.DataType");
    KeysAreSystemAttributes(1, "Value.StringValue");
  }

  /** The index is at least 1, except that it wraps to Int32.MinValue when some
      value parses to Int32.MaxValue. */
  lemma NextIndexBounds(parameters: map<string, string>)
    ensures MaxOf(IndexCandidates(parameters, parameters.Keys)) < Int32Max ==> NextIndex(parameters) >= 1
    ensures MaxOf(IndexCandidates(parameters, parameters.Keys)) == Int32Max ==> NextIndex(parameters) == Int32Min
  {
  }

  lemma {:induction false} AfterDotOfJoin(a: string, b: string)
    requires '.' !in a
    ensures AfterDot(a + "." + b) == Some(b)
    decreases |a|
  {
    if a == [] {
      assert a + "." + b == "." + b;
    } else {
      assert (a + "." + b)[1..] == a[1..] + "." + b;
      AfterDotOfJoin(a[1..], b);
    }
  }

  /** The text before the first '.' of b followed by '.'-led (or no) text is b. */
  lemma {:induction false} BeforeDotOfJoin(b: string, rest: string)
    requires '.' !in b && (rest == [] || rest[0] == '.')
    ensures BeforeDot(b + rest) == b
    decreases |b|
  {
    if b != [] {
      assert (b + rest)[1..] == b[1..] + rest;
      BeforeDotOfJoin(b[1..], rest);
      assert [b[0]] + b[1..] == b;
    } else {
      assert b + rest == rest;
    }
  }

  /** `Split('.')[1]` of "a.b" followed by nothing or by further '.'-separated text is b. */
  lemma SecondSegmentOfJoin(a: string, b: string, rest: string)
    requires '.' !in a && '.' !in b && (rest == [] || rest[0] == '.')
    ensures SecondSegment(a + "." + b + rest) == Some(b)
  {
    assert a + "." + b + rest == a + "." + (b + rest);
    AfterDotOfJoin(a, b + rest);
    BeforeDotOfJoin(b, rest);
  }

  /** The text of an Int32 has no '.': a sign and digits only. */
  lemma NoDotInFormatInt(n: int)
    ensures '.' !in FormatInt(n)
  {
    var s := FormatInt(n);
    if n < 0 {
      var d := NatDigits(-n);
      assert s == "-" + d;
      forall i | 0 <= i < |s| ensures s[i] != '.' {
        if i > 0 {
          assert s[i] == d[i - 1] && IsDigit(d[i - 1]);
        }
      }
    } else {
      forall i | 0 <= i < |s| ensures s[i] != '.' {
        assert IsDigit(s[i]);
      }
    }
  }

  /** A value "a.n", with no '.' in a, contributes the index n. */
  lemma IndexReadFromValue(a: string, n: int)
    requires '.' !in a && IsInt32(n)
    ensures '.' in a + "." + FormatInt(n)
    ensures ParsedIndex(a + "." + FormatInt(n)) == n
  {
    var v := a + "." + FormatInt(n);
    assert v[|a|] == '.';
    AfterDotOfJoin(a, FormatInt(n));
    NoDotInFormatInt(n);
    BeforeDotOfJoin(FormatInt(n), []);
    assert FormatInt(n) + [] == FormatInt(n);
    ParseFormatRoundTrip(n);
  }

  /** The candidates of a one-parameter map whose value can be split. */
  lemma SingleCandidates(key: string, v: string)
    requires IsSystemAttributeKey(key) && '.' in v
    ensures !HasUnsplittable(map[key := v])
    ensures IndexCandidates(map[key := v], map[key := v].Keys) == {0, ParsedIndex(v)}
  {
    var parameters := map[key := v];
    assert parameters.Keys == {key};
    CandidatesStep(parameters, {}, key);
    assert IndexCandidates(parameters, {}) == {0};
    assert {} + {key} == {key};
  }

  lemma MaxOfPair(n: int)
    requires 0 <= n
    ensures MaxOf({0, n}) == n
  {
  }

  /** A single system-attribute parameter whose value is "<a>.<n>" puts the new
      parameters at `n + 1`, wrapped to 32 bits; for n = Int32.MaxValue that is
      Int32.MinValue. */
  lemma SingleValueIndex(key: string, a: string, n: int)
    requires IsSystemAttributeKey(key) && '.' !in a && 0 <= n && IsInt32(n)
    ensures var parameters := map[key := a + "." + FormatInt(n)];
            !HasUnsplittable(parameters) && NextIndex(parameters) == Int32Increment(n)
    ensures n == Int32Max ==> Int32Increment(n) == Int32Min
  {
    var v := a + "." + FormatInt(n);
    IndexReadFromValue(a, n);
    SingleCandidates(key, v);
    MaxOfPair(n);
  }

  /** A system-attribute parameter whose value has no '.' (an attribute name such as
      "SenderId", say) makes the index computation throw, and nothing is added. */
  lemma UnsplittableValueThrows(parameters: map<string, string>, key: string, header: string)
    requires TraceHeaderAttributeName !in parameters.Values
    requires key in parameters && IsSystemAttributeKey(key) && '.' !in parameters[key]
    ensures InjectedParameters(parameters, header) == (parameters, Some(IndexOutOfRange))
  {
    assert Unsplittable(parameters, key);
  }

  /** Because the number is read from values, the allocated index can collide with an
      existing key: the parameters { "MessageSystemAttribute.<n+1>.Name": "<a>.<n>" }
      make the first `Add` throw. */
  lemma AllocatedIndexCanCollide(a: string, n: int, header: string)
    requires '.' !in a && 0 <= n < Int32Max
    ensures var key := ParameterKey(n + 1, "Name");
            var parameters := map[key := a + "." + FormatInt(n)];
            InjectedParameters(parameters, header) == (parameters, Some(DuplicateKey(key)))
  {
    var key := ParameterKey(n + 1, "Name");
    var v := a + "." + FormatInt(n);
    var parameters := map[key := v];
    KeysAreSystemAttributes(n + 1, "Name");
    NoHeaderNameAmongJoined(key, a, FormatInt(n));
    SingleValueIndex(key, a, n);
    var entries := SystemAttributeEntries(n + 1, header);
    assert InjectedParameters(parameters, header) == AddAll(parameters, entries);
    assert entries[0].0 == key;
  }

  /** Every key written by the injection is a system-attribute key. */
  lemma KeysAreSystemAttributes(index: int, suffix: string)
    ensures IsSystemAttributeKey(ParameterKey(index, suffix))
  {
    var digits := FormatInt(index);
    var rest := "." + digits + "." + suffix;
    assert ParameterKey(index, suffix) == SystemAttributePrefix + rest;
    assert (SystemAttributePrefix + rest)[..|SystemAttributePrefix|] == SystemAttributePrefix;
  }

  /** A single value holding a '.' is not the trace header attribute name. */
  lemma NoHeaderNameAmongJoined(key: string, a: string, b: string)
    ensures TraceHeaderAttributeName !in map[key := a + "." + b].Values
  {
    assert (a + "." + b)[|a|] == '.';
    assert '.' !in TraceHeaderAttributeName;
    SingletonValues(key, a + "." + b);
  }

  /** A map with one entry has exactly that entry's value. */
  lemma SingletonValues(key: string, v: string)
    ensures map[key := v].Values == {v}
  {
    forall w | w in map[key := v].Values ensures w == v {
      var k :| k in map[key := v] && map[key := v][k] == w;
    }
    assert map[key := v][key] == v;
  }
}
