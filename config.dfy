/** The generator's global settings (taverna_to_hadoop.utils.Config): the
    template location and output names, a post-increment counter, the
    activity-to-template mapping read from a tab-separated file, and a table
    of activity configurations. The static fields of the Java class are the
    fields of one Config object that every part of the generator shares. */
module ToHadoopConfig {
  import opened Wrappers
  import opened JavaString
  import opened Files

  const DefaultPathToTemplates: string := "resources/templates/"
  const DefaultTemplateMappingFile: string := "mapping"
  const DefaultHadoopClassName: string := "HadoopClass"
  const DefaultHadoopPackageName: string := "de.tuberlin.schenck.taverna_compilation.generated"

  const MinInt: int := -0x8000_0000
  const MaxInt: int := 0x7FFF_FFFF

  predicate IsInt32(n: int) {
    MinInt <= n <= MaxInt
  }

  /** `n + 1` in 32-bit two's complement: Integer.MAX_VALUE wraps to Integer.MIN_VALUE. */
  function Next(n: int): (r: int)
    requires IsInt32(n)
    ensures IsInt32(r)
    ensures n < MaxInt ==> r == n + 1
    ensures n == MaxInt ==> r == MinInt
  {
    if n == MaxInt then MinInt else n + 1
  }

  /** The counter value after k draws starting at n. */
  function Advance(n: int, k: nat): (r: int)
    requires IsInt32(n)
    ensures IsInt32(r)
  {
    if k == 0 then n else Next(Advance(n, k - 1))
  }

  /** Two draws in a row never return the same number. */
  lemma NextDiffers(n: int)
    requires IsInt32(n)
    ensures Next(n) != n
  {
  }

  /** Starting from 0, the k-th draw returns k as long as the counter has not wrapped. */
  lemma {:induction false} AdvanceFromZero(k: nat)
    requires k <= MaxInt
    ensures Advance(0, k) == k
  {
    if k > 0 {
      AdvanceFromZero(k - 1);
    }
  }

  /** `Map.get`: the value under a key, or null. */
  function Get(m: map<string, string>, key: string): (r: Option<string>)
    ensures r.Some? <==> key in m
    ensures r.Some? ==> m[key] == r.value
  {
    if key in m then Some(m[key]) else None
  }

  /** A put is seen by the next get of that key and by no other key. */
  lemma GetAfterPut(m: map<string, string>, key: string, value: string, other: string)
    ensures Get(m[key := value], key) == Some(value)
    ensures other != key ==> Get(m[key := value], other) == Get(m, other)
  {
  }

  /** The two mapping tables filled from the mapping file. */
  datatype Tables = Tables(mapper: map<string, string>, reducer: map<string, string>)

  /** What reading the mapping file leaves behind: the tables, and the
      exception that aborted the read, if one did. */
  datatype ReadOutcome = ReadOutcome(tables: Tables, fault: Option<Fault>)

  /** One line of the mapping file: `line.split("\t")`, then field 0 to
      field 1 into the mapper table and field 0 to field 2 into the reducer
      table. An index past the end of the split throws, after the puts that
      came before it. */
  function ApplyLine(t: Tables, line: string): (r: ReadOutcome)
    ensures var splits := Split(line, '\t');
            r.fault.None? <==> |splits| >= 3
    ensures var splits := Split(line, '\t');
            |splits| >= 3 ==> r.tables == Tables(t.mapper[splits[0] := splits[1]], t.reducer[splits[0] := splits[2]])
    ensures r.tables.reducer == t.reducer || r.fault.None?
  {
    var splits := Split(line, '\t');
    if |splits| < 2 then ReadOutcome(t, Some(IndexOutOfBounds))
    else if |splits| < 3 then ReadOutcome(t.(mapper := t.mapper[splits[0] := splits[1]]), Some(IndexOutOfBounds))
    else ReadOutcome(Tables(t.mapper[splits[0] := splits[1]], t.reducer[splits[0] := splits[2]]), None)
  }

  /** The read loop over the lines of the file, stopping at the first line that throws. */
  function ApplyLines(t: Tables, lines: seq<string>): ReadOutcome
    decreases |lines|
  {
    if lines == [] then ReadOutcome(t, None)
    else
      var o := ApplyLine(t, lines[0]);
      if o.fault.Some? then o else ApplyLines(o.tables, lines[1..])
  }

  /** The read loop from line i on: line i first, then the rest unless it threw. */
  lemma ApplyLinesAt(t: Tables, lines: seq<string>, i: nat)
    requires i < |lines|
    ensures var o := ApplyLine(t, lines[i]);
            ApplyLines(t, lines[i..]) == if o.fault.Some? then o else ApplyLines(o.tables, lines[i + 1..])
  {
    assert lines[i..][0] == lines[i] && lines[i..][1..] == lines[i + 1..];
  }

  /** Reading two runs of lines one after the other is reading their concatenation. */
  lemma {:induction false} ApplyLinesAppend(t: Tables, xs: seq<string>, ys: seq<string>)
    ensures var o := ApplyLines(t, xs);
            ApplyLines(t, xs + ys) == if o.fault.Some? then o else ApplyLines(o.tables, ys)
    decreases |xs|
  {
    if xs != [] {
      assert (xs + ys)[0] == xs[0];
      assert (xs + ys)[1..] == xs[1..] + ys;
      var o := ApplyLine(t, xs[0]);
      if o.fault.None? {
        ApplyLinesAppend(o.tables, xs[1..], ys);
      }
    } else {
      assert xs + ys == ys;
    }
  }

  /** The mapping line for one activity URI. */
  function MappingLine(uri: string, mapper: string, reducer: string): string {
    uri + "\t" + mapper + "\t" + reducer
  }

  /** A well-formed line (no tab inside a field, a non-empty reducer) maps
      its URI to its mapper and its reducer. */
  lemma MappingLineApplies(t: Tables, uri: string, mapper: string, reducer: string)
    requires '\t' !in uri && '\t' !in mapper && '\t' !in reducer && reducer != []
    ensures ApplyLine(t, MappingLine(uri, mapper, reducer))
         == ReadOutcome(Tables(t.mapper[uri := mapper], t.reducer[uri := reducer]), None)
  {
    var fields := [uri, mapper, reducer];
    assert Join(fields, '\t') == MappingLine(uri, mapper, reducer) by {
      assert fields[1..] == [mapper, reducer];
      assert fields[1..][1..] == [reducer];
      assert Join(fields[1..], '\t') == mapper + "\t" + reducer;
    }
    SplitJoin(fields, '\t');
  }

  /** An empty reducer field is dropped by split, so the line has two fields
      and throws once the mapper entry is in. */
  lemma EmptyReducerAborts(t: Tables, uri: string, mapper: string)
    requires '\t' !in uri && '\t' !in mapper && mapper != []
    ensures ApplyLine(t, MappingLine(uri, mapper, ""))
         == ReadOutcome(Tables(t.mapper[uri := mapper], t.reducer), Some(IndexOutOfBounds))
  {
    var line := MappingLine(uri, mapper, "");
    var raw := [uri, mapper, ""];
    assert Join(raw, '\t') == line by {
      assert raw[1..] == [mapper, ""];
      assert raw[1..][1..] == [""];
      assert Join(raw[1..], '\t') == mapper + "\t" + "";
    }
    RawSplitJoin(raw, '\t');
    assert line[|uri|] == '\t';
    assert DropTrailingEmpty(raw) == [uri, mapper] by {
      assert raw[..2] == [uri, mapper];
    }
  }

  /** An empty reducer field that is not the last field of its line is
      kept by `split`: the line is read, and the URI maps to the reducer
      name "". */
  lemma EmptyInnerReducerStored(t: Tables, uri: string, mapper: string, rest: string)
    requires '\t' !in uri && '\t' !in mapper && '\t' !in rest && rest != []
    ensures ApplyLine(t, MappingLine(uri, mapper, "") + "\t" + rest)
         == ReadOutcome(Tables(t.mapper[uri := mapper], t.reducer[uri := ""]), None)
  {
    var fields := [uri, mapper, "", rest];
    assert Join(fields, '\t') == MappingLine(uri, mapper, "") + "\t" + rest by {
      assert fields[1..] == [mapper, "", rest];
      assert fields[1..][1..] == ["", rest];
      assert fields[1..][1..][1..] == [rest];
      assert Join(fields[1..][1..], '\t') == "" + "\t" + rest;
      assert Join(fields[1..], '\t') == mapper + "\t" + ("" + "\t" + rest);
    }
    SplitJoin(fields, '\t');
  }

  /** A later line for the same URI overwrites the entries of an earlier one. */
  lemma LaterLineWins(t: Tables, uri: string, m1: string, r1: string, m2: string, r2: string)
    requires '\t' !in uri && '\t' !in m1 && '\t' !in r1 && r1 != []
    requires '\t' !in m2 && '\t' !in r2 && r2 != []
    ensures var o := ApplyLines(t, [MappingLine(uri, m1, r1), MappingLine(uri, m2, r2)]);
            o.fault.None? && Get(o.tables.mapper, uri) == Some(m2) && Get(o.tables.reducer, uri) == Some(r2)
  {
    var lines := [MappingLine(uri, m1, r1), MappingLine(uri, m2, r2)];
    MappingLineApplies(t, uri, m1, r1);
    var t1 := Tables(t.mapper[uri := m1], t.reducer[uri := r1]);
    MappingLineApplies(t1, uri, m2, r2);
    assert lines[1..] == [MappingLine(uri, m2, r2)];
    assert lines[1..][1..] == [];
    assert ApplyLines(t1, lines[1..]) == ApplyLines(Tables(t1.mapper[uri := m2], t1.reducer[uri := r2]), []);
  }

  /** A line that throws keeps every entry the earlier lines made, and the lines after it are never read. */
  lemma {:induction false} FaultKeepsEarlierLines(t: Tables, good: seq<string>, bad: string, rest: seq<string>)
    requires ApplyLines(t, good).fault.None?
    requires |Split(bad, '\t')| < 3
    ensures var before := ApplyLines(t, good).tables;
            var o := ApplyLines(t, good + [bad] + rest);
            && o.fault == Some(IndexOutOfBounds)
            && o.tables.reducer == before.reducer
            && forall k :: k in before.mapper ==> k in o.tables.mapper
  {
    ApplyLinesAppend(t, good, [bad] + rest);
    assert good + [bad] + rest == good + ([bad] + rest);
    var before := ApplyLines(t, good).tables;
    assert ([bad] + rest)[0] == bad;
  }

  class Config {
    var pathToTemplates: string
    var templateMappingFile: string
    var hadoopClassName: string
    var hadoopPackageName: string
    /** A Java int: it wraps around after Integer.MAX_VALUE. */
    var counter: int
    var mapperMapping: map<string, string>
    var reducerMapping: map<string, string>
    var activityConfigurations: map<string, string>

    ghost predicate Valid()
      reads this
    {
      IsInt32(counter)
    }

    /** The state a freshly loaded Config class has. */
    constructor ()
      ensures Valid()
      ensures pathToTemplates == DefaultPathToTemplates
      ensures templateMappingFile == DefaultTemplateMappingFile
      ensures hadoopClassName == DefaultHadoopClassName
      ensures hadoopPackageName == DefaultHadoopPackageName
      ensures counter == 0
      ensures mapperMapping == map[] && reducerMapping == map[] && activityConfigurations == map[]
    {
      pathToTemplates := DefaultPathToTemplates;
      templateMappingFile := DefaultTemplateMappingFile;
      hadoopClassName := DefaultHadoopClassName;
      hadoopPackageName := DefaultHadoopPackageName;
      counter := 0;
      mapperMapping := map[];
      reducerMapping := map[];
      activityConfigurations := map[];
    }

    /** `getActivityConfiguration(key)`. */
    function GetActivityConfiguration(key: string): (r: Option<string>)
      reads this
      ensures r.Some? <==> key in activityConfigurations
    {
      Get(activityConfigurations, key)
    }

    method PutActivityConfiguration(key: string, value: string)
      modifies this`activityConfigurations
      ensures activityConfigurations == old(activityConfigurations)[key := value]
      ensures GetActivityConfiguration(key) == Some(value)
      ensures forall k :: k != key ==> GetActivityConfiguration(k) == old(GetActivityConfiguration(k))
    {
      activityConfigurations := activityConfigurations[key := value];
    }

    /** `getCount()`: the current value, then the counter moves on by one. */
    method GetCount() returns (c: int)
      requires Valid()
      modifies this`counter
      ensures Valid()
      ensures c == old(counter) && counter == Next(c)
    {
      c := counter;
      counter := Next(counter);
    }

    method SetPathToTemplates(v: string)
      modifies this`pathToTemplates
      ensures pathToTemplates == v
    {
      pathToTemplates := v;
    }

    method SetTemplateMappingFile(v: string)
      modifies this`templateMappingFile
      ensures templateMappingFile == v
    {
      templateMappingFile := v;
    }

    method SetHadoopClassName(v: string)
      modifies this`hadoopClassName
      ensures hadoopClassName == v
    {
      hadoopClassName := v;
    }

    method SetHadoopPackageName(v: string)
      modifies this`hadoopPackageName
      ensures hadoopPackageName == v
    {
      hadoopPackageName := v;
    }

    method SetMapperMapping(v: map<string, string>)
      modifies this`mapperMapping
      ensures mapperMapping == v
    {
      mapperMapping := v;
    }

    method SetReducerMapping(v: map<string, string>)
      modifies this`reducerMapping
      ensures reducerMapping == v
    {
      reducerMapping := v;
    }

    /** `readTemplateMapping()`: reads the file pathToTemplates +
        templateMappingFile line by line into the two tables. A missing file
        is only logged; a line with fewer than three fields aborts the read
        with the exception it throws. */
    method ReadTemplateMapping(fs: map<string, string>) returns (fault: Option<Fault>)
      modifies this`mapperMapping, this`reducerMapping
      ensures var path := old(pathToTemplates + templateMappingFile);
              var o := ApplyLines(Tables(old(mapperMapping), old(reducerMapping)), if path in fs then ReadLines(fs[path]) else []);
              Tables(mapperMapping, reducerMapping) == o.tables && fault == o.fault
    {
      var path := pathToTemplates + templateMappingFile;
      fault := None;
      if path !in fs {
        return;
      }
      var lines := ReadLines(fs[path]);
      ghost var goal := ApplyLines(Tables(mapperMapping, reducerMapping), lines);
      var i := 0;
      while i < |lines|
        invariant 0 <= i <= |lines|
        invariant pathToTemplates + templateMappingFile == path
        invariant ApplyLines(Tables(mapperMapping, reducerMapping), lines[i..]) == goal
      {
        ApplyLinesAt(Tables(mapperMapping, reducerMapping), lines, i);
        var splits := Split(lines[i], '\t');
        if |splits| < 1 {
          fault := Some(IndexOutOfBounds);
          return;
        }
        if |splits| < 2 {
          fault := Some(IndexOutOfBounds);
          return;
        }
        mapperMapping := mapperMapping[splits[0] := splits[1]];
        if |splits| < 3 {
          fault := Some(IndexOutOfBounds);
          return;
        }
        reducerMapping := reducerMapping[splits[0] := splits[2]];
        i := i + 1;
      }
      assert lines[i..] == [];
    }
  }
}
