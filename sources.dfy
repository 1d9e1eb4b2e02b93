/**
 * The input-source registry (sources.py, class SourceMap): the receiver's
 * source codes and their names, the lower-cased name -> "<code>FN" select
 * command table derived from them, and the user's alias pairs, whose
 * resolutions are copied from one side to the other once, when the pair is
 * added or a name is learnt.
 *
 * The registry's behaviour is stated on values (`Registry` and the functions
 * below); the class `SourceMap` holds the same three tables as fields and its
 * methods are proved to update them as those functions say.
 */
module Sources {
  import opened Py

  /** The three tables of a SourceMap. */
  datatype Registry = Registry(sources: map<string, string>, inverse: map<string, string>, aliases: map<string, string>)

  const Empty: Registry := Registry(map[], map[], map[])

  /**
   * The default table (`defaultInputSourcesMap`): code and name of every
   * input, in the order the table lists them, which is the order the dict
   * iterates its items in.
   */
  const DefaultInputSources: seq<(string, string)> := [
    ("00", "PHONO"), ("01", "CD"), ("02", "TUNER"), ("04", "DVD"),
    ("05", "TV"), ("06", "SAT/CBL"), ("10", "VIDEO"), ("12", "MULTI CH IN"),
    ("13", "USB-DAC"), ("15", "DVR/BDR"), ("17", "iPod/USB"), ("19", "HDMI1"),
    ("20", "HDMI2"), ("21", "HDMI3"), ("22", "HDMI4"), ("23", "HDMI5"),
    ("24", "HDMI6"), ("25", "BD"), ("26", "NETWORK"), ("31", "HDMI"),
    ("33", "ADAPTER PORT"), ("34", "HDMI7"), ("38", "INTERNET RADIO"), ("40", "SiriusXM"),
    ("41", "PANDORA"), ("44", "MEDIA SERVER"), ("45", "Favorites"), ("47", "DMR"),
    ("48", "MHL")
  ]

  /** `dict(items)`: a later entry for a code replaces an earlier one. */
  function ToMap(items: seq<(string, string)>): map<string, string> {
    if items == [] then map[]
    else
      var p := items[|items| - 1];
      ToMap(items[..|items| - 1])[p.0 := p.1]
  }

  /** The codes of `dict(items)` are those of the items. */
  lemma {:induction false} ToMapKeys(items: seq<(string, string)>)
    ensures forall k :: k in ToMap(items) <==> exists j :: 0 <= j < |items| && items[j].0 == k
    decreases |items|
  {
    if items != [] {
      var n := |items|;
      ToMapKeys(items[..n - 1]);
      forall k | k in ToMap(items) ensures exists j :: 0 <= j < n && items[j].0 == k {
        if k != items[n - 1].0 {
          assert k in ToMap(items[..n - 1]);
          var j :| 0 <= j < n - 1 && items[..n - 1][j].0 == k;
          assert items[j].0 == k;
        }
      }
    }
  }

  /** `d.get(key)` is truthy: the key is present with a non-empty value. */
  predicate Resolves(d: map<string, string>, key: string) {
    key in d && d[key] != ""
  }

  /** The select command of a known source: its code followed by "FN". */
  predicate IsSourceCommand(sources: map<string, string>, command: string) {
    && |command| >= 2 && command[|command| - 2] == 'F' && command[|command| - 1] == 'N'
    && command[..|command| - 2] in sources
  }

  /**
   * What every SourceMap keeps: each source name, lower-cased, has a select
   * command, and every select command is that of a known source code.
   */
  predicate Valid(r: Registry) {
    && (forall id :: id in r.sources ==> Lower(r.sources[id]) in r.inverse)
    && (forall n :: n in r.inverse ==> IsSourceCommand(r.sources, r.inverse[n]))
  }

  /** `get`: the name of a source code, if known. */
  function Lookup(r: Registry, id: string): Option<string> {
    if id in r.sources then Some(r.sources[id]) else None
  }

  /** `register_reverse_source`: the lower-cased name selects the code. */
  function RegisterReverse(r: Registry, k: string, v: string): Registry {
    r.(inverse := r.inverse[Lower(v) := k + "FN"])
  }

  /** A source code and its name, as `init_from_map` and `update_source` record them. */
  function SetSource(r: Registry, k: string, v: string): Registry {
    RegisterReverse(r.(sources := r.sources[k := v]), k, v)
  }

  /**
   * `check_aliases`, with the write on the second branch going to the inverse
   * table (see PropagateAsWritten): a side with no entry at all takes the
   * other side's command when that one is non-empty.
   */
  function Propagate(r: Registry, a: string, b: string): Registry {
    if a !in r.inverse && Resolves(r.inverse, b) then r.(inverse := r.inverse[a := r.inverse[b]])
    else if b !in r.inverse && Resolves(r.inverse, a) then r.(inverse := r.inverse[b := r.inverse[a]])
    else r
  }

  /**
   * `check_aliases` as sources.py:104-111 has it: the second branch assigns
   * into `inverseSourcesMap`, a name defined nowhere, which raises NameError.
   */
  function PropagateAsWritten(r: Registry, a: string, b: string): Result<Registry> {
    if a !in r.inverse && Resolves(r.inverse, b) then Ok(r.(inverse := r.inverse[a := r.inverse[b]]))
    else if b !in r.inverse && Resolves(r.inverse, a) then Err(NameError)
    else Ok(r)
  }

  /** `add_alias`: both names lower-cased, linked both ways, then one resolution propagated. */
  function WithAlias(r: Registry, a: string, b: string): Registry {
    var la, lb := Lower(a), Lower(b);
    Propagate(r.(aliases := r.aliases[la := lb][lb := la]), la, lb)
  }

  /** The names of the four built-in alias pairs. */
  const BuiltinAliasNames: set<string> := {"apple", "appletv", "amazon", "amazontv", "radio", "tuner", "iradio", "internet radio"}

  /** `add_aliases`: the four built-in alias pairs. */
  function AddDefaultAliases(r: Registry): Registry {
    var r1 := WithAlias(r, "apple", "appletv");
    var r2 := WithAlias(r1, "amazon", "amazontv");
    var r3 := WithAlias(r2, "radio", "tuner");
    WithAlias(r3, "iradio", "internet radio")
  }

  /** The first loop of `init_from_map`: every item of the table, in order. */
  function Seed(r: Registry, items: seq<(string, string)>): Registry {
    if items == [] then r
    else
      var p := items[|items| - 1];
      SetSource(Seed(r, items[..|items| - 1]), p.0, p.1)
  }

  /** `init_from_map` */
  function InitFrom(r: Registry, items: seq<(string, string)>): Registry {
    AddDefaultAliases(Seed(r, items))
  }

  /** A new SourceMap: the default table and the built-in aliases. */
  function Initial(): Registry {
    InitFrom(Empty, DefaultInputSources)
  }

  /**
   * `update_source`: record the name, then propagate through the alias of the
   * name exactly as learnt; the alias table is keyed by lower-cased names but
   * is looked up without lower-casing.
   */
  function Updated(r: Registry, name: string, id: string): Registry {
    var r1 := SetSource(r, id, name);
    var alias := Get(r1.aliases, name, "");
    if alias != "" then Propagate(r1, name, alias) else r1
  }

  /** `update_source` as written: the propagation may raise NameError. */
  function UpdatedAsWritten(r: Registry, name: string, id: string): Result<Registry> {
    var r1 := SetSource(r, id, name);
    var alias := Get(r1.aliases, name, "");
    if alias != "" then PropagateAsWritten(r1, name, alias) else Ok(r1)
  }

  /** The code and the name of a line "<id> <name>" (characters 0..2 and 3 onwards). */
  function LearnedId(s: string): string { Slice(s, 0, 2) }

  function LearnedName(s: string): string { From(s, 3) }

  /** `learn_input_from`: only a name that differs from the recorded one is updated. */
  function Learn(r: Registry, s: string): Registry {
    var id, name := LearnedId(s), LearnedName(s);
    if Lookup(r, id) == Some(name) then r else Updated(r, name, id)
  }

  /** `learn_input_from` as written: it may raise NameError through `update_source`. */
  function LearnAsWritten(r: Registry, s: string): Result<Registry> {
    var id, name := LearnedId(s), LearnedName(s);
    if Lookup(r, id) == Some(name) then Ok(r) else UpdatedAsWritten(r, name, id)
  }

  /** `add_alias` as written: its `check_aliases` may raise NameError. */
  function WithAliasAsWritten(r: Registry, a: string, b: string): Result<Registry> {
    var la, lb := Lower(a), Lower(b);
    PropagateAsWritten(r.(aliases := r.aliases[la := lb][lb := la]), la, lb)
  }

  /** One more `add_alias` as written, unless an earlier one raised. */
  function AliasStep(x: Result<Registry>, a: string, b: string): Result<Registry> {
    if x.Err? then x else WithAliasAsWritten(x.value, a, b)
  }

  /** `add_aliases` as written: the first pair whose propagation raises ends it. */
  function AddDefaultAliasesAsWritten(r: Registry): Result<Registry> {
    var x1 := WithAliasAsWritten(r, "apple", "appletv");
    var x2 := AliasStep(x1, "amazon", "amazontv");
    var x3 := AliasStep(x2, "radio", "tuner");
    AliasStep(x3, "iradio", "internet radio")
  }

  /** `init_from_map` as written. */
  function InitFromAsWritten(r: Registry, items: seq<(string, string)>): Result<Registry> {
    AddDefaultAliasesAsWritten(Seed(r, items))
  }

  // ---------------------------------------------------------------------------
  // Properties

  /** The corrected propagation only ever adds an entry to the inverse table. */
  lemma CheckAliasesOnlyAdds(r: Registry, a: string, b: string)
    ensures var q := Propagate(r, a, b);
      q.sources == r.sources && q.aliases == r.aliases &&
      r.inverse.Keys <= q.inverse.Keys && q.inverse.Keys <= r.inverse.Keys + {a, b} &&
      forall n :: n in r.inverse ==> q.inverse[n] == r.inverse[n]
  {
  }

  /**
   * The inverse table changes exactly when one side has no entry and the other
   * resolves; then both names select the same source.
   */
  lemma CheckAliasesPropagates(r: Registry, a: string, b: string)
    ensures var q := Propagate(r, a, b);
      var fires := (a !in r.inverse && Resolves(r.inverse, b)) || (b !in r.inverse && Resolves(r.inverse, a));
      && (q == r <==> !fires)
      && (fires ==> a in q.inverse && b in q.inverse && q.inverse[a] == q.inverse[b] && Resolves(q.inverse, a))
  {
  }

  /** When both sides resolve, or neither does, nothing changes. */
  lemma CheckAliasesBothOrNeither(r: Registry, a: string, b: string)
    requires Resolves(r.inverse, a) == Resolves(r.inverse, b)
    ensures Propagate(r, a, b) == r
  {
  }

  /** The code as written agrees with the corrected one except where the corrected one writes the second name. */
  lemma CheckAliasesAsWrittenAgrees(r: Registry, a: string, b: string)
    ensures PropagateAsWritten(r, a, b).Err? <==> !(a !in r.inverse && Resolves(r.inverse, b)) && b !in r.inverse && Resolves(r.inverse, a)
    ensures PropagateAsWritten(r, a, b).Ok? ==> PropagateAsWritten(r, a, b).value == Propagate(r, a, b)
    ensures PropagateAsWritten(r, a, b).Err? ==> PropagateAsWritten(r, a, b).error == NameError
  {
  }

  /**
   * `add_alias` as written raises NameError exactly when the second name, once
   * lower-cased, has no select command and the first resolves; otherwise it
   * agrees with the corrected `add_alias`.
   */
  lemma AddAliasAsWrittenAgrees(r: Registry, a: string, b: string)
    ensures WithAliasAsWritten(r, a, b).Err? <==> Lower(b) !in r.inverse && Resolves(r.inverse, Lower(a))
    ensures WithAliasAsWritten(r, a, b).Ok? ==> WithAliasAsWritten(r, a, b).value == WithAlias(r, a, b)
    ensures WithAliasAsWritten(r, a, b).Err? ==> WithAliasAsWritten(r, a, b).error == NameError
  {
    var la, lb := Lower(a), Lower(b);
    CheckAliasesAsWrittenAgrees(r.(aliases := r.aliases[la := lb][lb := la]), la, lb);
  }

  /** `add_aliases` as written either raises NameError or ends where the corrected one does. */
  lemma AddDefaultAliasesAsWrittenAgrees(r: Registry)
    ensures AddDefaultAliasesAsWritten(r).Ok? ==> AddDefaultAliasesAsWritten(r).value == AddDefaultAliases(r)
    ensures AddDefaultAliasesAsWritten(r).Err? ==> AddDefaultAliasesAsWritten(r).error == NameError
  {
    AddAliasAsWrittenAgrees(r, "apple", "appletv");
    var r1 := WithAlias(r, "apple", "appletv");
    AddAliasAsWrittenAgrees(r1, "amazon", "amazontv");
    var r2 := WithAlias(r1, "amazon", "amazontv");
    AddAliasAsWrittenAgrees(r2, "radio", "tuner");
    var r3 := WithAlias(r2, "radio", "tuner");
    AddAliasAsWrittenAgrees(r3, "iradio", "internet radio");
  }

  /** After `add_alias` the two lower-cased names are each other's alias, and nothing is removed. */
  lemma AddAliasSymmetric(r: Registry, a: string, b: string)
    ensures var q := WithAlias(r, a, b);
      && Lower(a) in q.aliases && q.aliases[Lower(a)] == Lower(b)
      && Lower(b) in q.aliases && q.aliases[Lower(b)] == Lower(a)
      && q.sources == r.sources && r.inverse.Keys <= q.inverse.Keys
      && (forall n :: n in r.aliases && n != Lower(a) && n != Lower(b) ==> q.aliases[n] == r.aliases[n])
  {
  }

  /** `add_alias` records the pair and may add a select command for the two names, and for no other. */
  lemma AddAliasOnlyAdds(r: Registry, a: string, b: string)
    ensures var q := WithAlias(r, a, b);
      && q.sources == r.sources
      && q.aliases == r.aliases[Lower(a) := Lower(b)][Lower(b) := Lower(a)]
      && r.inverse.Keys <= q.inverse.Keys && q.inverse.Keys <= r.inverse.Keys + {Lower(a), Lower(b)}
      && (forall n :: n in r.inverse ==> q.inverse[n] == r.inverse[n])
  {
    var la, lb := Lower(a), Lower(b);
    CheckAliasesOnlyAdds(r.(aliases := r.aliases[la := lb][lb := la]), la, lb);
  }

  /**
   * Alias chaining: once an alias resolves, a further alias of that alias
   * resolves to the same command.
   */
  lemma AliasChain(r: Registry, target: string, first: string, second: string)
    requires Resolves(r.inverse, Lower(target))
    requires Lower(first) !in r.inverse && Lower(second) !in r.inverse && Lower(first) != Lower(second)
    ensures var q := WithAlias(WithAlias(r, first, target), second, first);
      && Lower(first) in q.inverse && q.inverse[Lower(first)] == r.inverse[Lower(target)]
      && Lower(second) in q.inverse && q.inverse[Lower(second)] == r.inverse[Lower(target)]
  {
    var q1 := WithAlias(r, first, target);
    assert q1.inverse[Lower(first)] == r.inverse[Lower(target)];
    CheckAliasesOnlyAdds(q1.(aliases := q1.aliases[Lower(second) := Lower(first)][Lower(first) := Lower(second)]), Lower(second), Lower(first));
  }

  /** Learning a name records it under its code and makes its lower-cased form select that code. */
  lemma LearnRecords(r: Registry, s: string)
    ensures var q := Learn(r, s);
      && Lookup(q, LearnedId(s)) == Some(LearnedName(s))
      && (Lookup(r, LearnedId(s)) != Some(LearnedName(s)) ==>
            Lower(LearnedName(s)) in q.inverse && q.inverse[Lower(LearnedName(s))] == LearnedId(s) + "FN")
  {
    var id, name := LearnedId(s), LearnedName(s);
    if Lookup(r, id) != Some(name) {
      var r1 := SetSource(r, id, name);
      var alias := Get(r1.aliases, name, "");
      if alias != "" {
        CheckAliasesOnlyAdds(r1, name, alias);
      }
    }
  }

  /** Learning the same line twice is the same as learning it once. */
  lemma LearnIdempotent(r: Registry, s: string)
    ensures Learn(Learn(r, s), s) == Learn(r, s)
  {
    LearnRecords(r, s);
  }

  /**
   * Learning never forgets: every code, every select command and every alias
   * stays, and the only codes whose names change is the learnt one; the old
   * name of a renamed source keeps selecting it.
   */
  lemma LearnKeeps(r: Registry, s: string)
    ensures var q := Learn(r, s);
      && r.sources.Keys <= q.sources.Keys && r.inverse.Keys <= q.inverse.Keys && q.aliases == r.aliases
      && (forall id :: id in r.sources && id != LearnedId(s) ==> q.sources[id] == r.sources[id])
      && (forall n :: n in r.inverse && n != Lower(LearnedName(s)) ==> q.inverse[n] == r.inverse[n])
  {
    var id, name := LearnedId(s), LearnedName(s);
    if Lookup(r, id) != Some(name) {
      var r1 := SetSource(r, id, name);
      var alias := Get(r1.aliases, name, "");
      if alias != "" {
        CheckAliasesOnlyAdds(r1, name, alias);
      }
    }
  }

  /**
   * The alias table is consulted with the name as learnt: a name that is not
   * itself an alias key (any name with an upper-case letter) propagates nothing.
   */
  lemma UpdateSourceCaseSensitive(r: Registry, name: string, id: string)
    requires name !in r.aliases
    ensures Updated(r, name, id) == SetSource(r, id, name)
  {
  }

  /**
   * A lower-case name whose alias has no entry yet: the code as written raises
   * NameError, where the corrected propagation gives the alias the new command.
   */
  lemma UpdateSourceNameError(r: Registry, name: string, id: string)
    requires Lower(name) == name && name in r.aliases && r.aliases[name] != "" && r.aliases[name] != name
    requires r.aliases[name] !in r.inverse
    ensures UpdatedAsWritten(r, name, id) == Err(NameError)
    ensures var q := Updated(r, name, id);
      r.aliases[name] in q.inverse && q.inverse[r.aliases[name]] == id + "FN"
  {
  }

  // ---------------------------------------------------------------------------
  // The invariant

  lemma SetSourceValid(r: Registry, k: string, v: string)
    requires Valid(r)
    ensures Valid(SetSource(r, k, v))
  {
    var q := SetSource(r, k, v);
    forall n | n in q.inverse ensures IsSourceCommand(q.sources, q.inverse[n]) {
      if n == Lower(v) {
        var c := k + "FN";
        assert c[..|c| - 2] == k;
      }
    }
  }

  lemma CheckAliasesValid(r: Registry, a: string, b: string)
    requires Valid(r)
    ensures Valid(Propagate(r, a, b))
  {
    if a !in r.inverse && Resolves(r.inverse, b) {
      CopyValid(r, a, b);
    } else if b !in r.inverse && Resolves(r.inverse, a) {
      CopyValid(r, b, a);
    }
  }

  /** Giving a name the select command of another name keeps the registry valid. */
  lemma CopyValid(r: Registry, x: string, y: string)
    requires Valid(r) && y in r.inverse
    ensures Valid(r.(inverse := r.inverse[x := r.inverse[y]]))
  {
    var q := r.(inverse := r.inverse[x := r.inverse[y]]);
    forall n | n in q.inverse ensures IsSourceCommand(q.sources, q.inverse[n]) {
      if n != x {
        assert q.inverse[n] == r.inverse[n];
      }
    }
  }

  lemma AddAliasValid(r: Registry, a: string, b: string)
    requires Valid(r)
    ensures Valid(WithAlias(r, a, b))
  {
    var la, lb := Lower(a), Lower(b);
    CheckAliasesValid(r.(aliases := r.aliases[la := lb][lb := la]), la, lb);
  }

  lemma AddDefaultAliasesValid(r: Registry)
    requires Valid(r)
    ensures Valid(AddDefaultAliases(r))
  {
    AddAliasValid(r, "apple", "appletv");
    var r1 := WithAlias(r, "apple", "appletv");
    AddAliasValid(r1, "amazon", "amazontv");
    var r2 := WithAlias(r1, "amazon", "amazontv");
    AddAliasValid(r2, "radio", "tuner");
    var r3 := WithAlias(r2, "radio", "tuner");
    AddAliasValid(r3, "iradio", "internet radio");
  }

  /** `add_aliases` records the four built-in pairs in both directions. */
  lemma AddDefaultAliasesPairs(r: Registry)
    ensures AddDefaultAliases(r).aliases ==
      r.aliases["apple" := "appletv"]["appletv" := "apple"]["amazon" := "amazontv"]["amazontv" := "amazon"]
               ["radio" := "tuner"]["tuner" := "radio"]["iradio" := "internet radio"]["internet radio" := "iradio"]
  {
    LowerBuiltinNames();
    AddAliasOnlyAdds(r, "apple", "appletv");
    var r1 := WithAlias(r, "apple", "appletv");
    AddAliasOnlyAdds(r1, "amazon", "amazontv");
    var r2 := WithAlias(r1, "amazon", "amazontv");
    AddAliasOnlyAdds(r2, "radio", "tuner");
    var r3 := WithAlias(r2, "radio", "tuner");
    AddAliasOnlyAdds(r3, "iradio", "internet radio");
  }

  /**
   * `add_aliases` keeps the sources and every existing select command, and
   * adds select commands for built-in alias names only.
   */
  lemma AddDefaultAliasesKeeps(r: Registry)
    ensures var q := AddDefaultAliases(r);
      && q.sources == r.sources
      && r.inverse.Keys <= q.inverse.Keys && q.inverse.Keys <= r.inverse.Keys + BuiltinAliasNames
      && (forall n :: n in r.inverse ==> q.inverse[n] == r.inverse[n])
  {
    LowerBuiltinNames();
    AddAliasOnlyAdds(r, "apple", "appletv");
    var r1 := WithAlias(r, "apple", "appletv");
    AddAliasOnlyAdds(r1, "amazon", "amazontv");
    var r2 := WithAlias(r1, "amazon", "amazontv");
    AddAliasOnlyAdds(r2, "radio", "tuner");
    var r3 := WithAlias(r2, "radio", "tuner");
    AddAliasOnlyAdds(r3, "iradio", "internet radio");
  }

  /** `add_alias` of two names neither of which selects anything leaves the select commands alone. */
  lemma AddAliasNeither(r: Registry, a: string, b: string)
    requires Lower(a) !in r.inverse && Lower(b) !in r.inverse
    ensures WithAlias(r, a, b).inverse == r.inverse
  {
  }

  /** `add_aliases` gives the apple pair no select command when neither name had one. */
  lemma AddDefaultAliasesNoApple(r: Registry)
    requires "apple" !in r.inverse && "appletv" !in r.inverse
    ensures "apple" !in AddDefaultAliases(r).inverse && "appletv" !in AddDefaultAliases(r).inverse
  {
    LowerBuiltinNames();
    AddAliasNeither(r, "apple", "appletv");
    var r1 := WithAlias(r, "apple", "appletv");
    AddAliasOnlyAdds(r1, "amazon", "amazontv");
    var r2 := WithAlias(r1, "amazon", "amazontv");
    AddAliasOnlyAdds(r2, "radio", "tuner");
    var r3 := WithAlias(r2, "radio", "tuner");
    AddAliasOnlyAdds(r3, "iradio", "internet radio");
  }

  /** The built-in alias names are already lower-case. */
  lemma LowerBuiltinNames()
    ensures Lower("apple") == "apple" && Lower("appletv") == "appletv"
    ensures Lower("amazon") == "amazon" && Lower("amazontv") == "amazontv"
    ensures Lower("radio") == "radio" && Lower("tuner") == "tuner"
    ensures Lower("iradio") == "iradio" && Lower("internet radio") == "internet radio"
  {
    LowerNoUpper("apple");
    LowerNoUpper("appletv");
    LowerNoUpper("amazon");
    LowerNoUpper("amazontv");
    LowerNoUpper("radio");
    LowerNoUpper("tuner");
    LowerNoUpper("iradio");
    LowerNoUpper("internet radio");
  }

  lemma {:induction false} SeedValid(r: Registry, items: seq<(string, string)>)
    requires Valid(r)
    ensures Valid(Seed(r, items))
    decreases |items|
  {
    if items != [] {
      var p := items[|items| - 1];
      SeedValid(r, items[..|items| - 1]);
      SetSourceValid(Seed(r, items[..|items| - 1]), p.0, p.1);
    }
  }

  /** Every operation keeps the registry valid, starting from a new SourceMap. */
  lemma InitialValid()
    ensures Valid(Initial())
  {
    SeedValid(Empty, DefaultInputSources);
    AddDefaultAliasesValid(Seed(Empty, DefaultInputSources));
  }

  lemma InitFromMapValid(r: Registry, items: seq<(string, string)>)
    requires Valid(r)
    ensures Valid(InitFrom(r, items))
  {
    SeedValid(r, items);
    AddDefaultAliasesValid(Seed(r, items));
  }

  lemma UpdatedValid(r: Registry, name: string, id: string)
    requires Valid(r)
    ensures Valid(Updated(r, name, id))
  {
    SetSourceValid(r, id, name);
    var r1 := SetSource(r, id, name);
    var alias := Get(r1.aliases, name, "");
    if alias != "" {
      CheckAliasesValid(r1, name, alias);
    }
  }

  lemma LearnValid(r: Registry, s: string)
    requires Valid(r)
    ensures Valid(Learn(r, s))
  {
    var id, name := LearnedId(s), LearnedName(s);
    if Lookup(r, id) != Some(name) {
      UpdatedValid(r, name, id);
    }
  }

  // ---------------------------------------------------------------------------
  // Initialisation from a table

  /** The first loop of `init_from_map` records the table over the old names, and no alias. */
  lemma {:induction false} SeedSources(r: Registry, items: seq<(string, string)>)
    ensures Seed(r, items).sources == r.sources + ToMap(items)
    ensures Seed(r, items).aliases == r.aliases
    decreases |items|
  {
    if items != [] {
      SeedSources(r, items[..|items| - 1]);
    }
  }

  /** The lower-cased names of the table. */
  function SeededNames(items: seq<(string, string)>): set<string> {
    set p | p in items :: Lower(p.1)
  }

  /** ... adds exactly the lower-cased names to the select commands ... */
  lemma {:induction false} SeedInverseKeys(r: Registry, items: seq<(string, string)>)
    ensures Seed(r, items).inverse.Keys == r.inverse.Keys + SeededNames(items)
    ensures forall n :: n in r.inverse && n !in SeededNames(items) ==> Seed(r, items).inverse[n] == r.inverse[n]
    decreases |items|
  {
    if items != [] {
      var n := |items|;
      SeedInverseKeys(r, items[..n - 1]);
      assert forall q :: q in items <==> q in items[..n - 1] || q == items[n - 1];
      assert SeededNames(items) == SeededNames(items[..n - 1]) + {Lower(items[n - 1].1)};
    }
  }

  /**
   * `init_from_map` on empty tables: the sources are the table, the aliases
   * the four built-in pairs, and the select commands those of the table's
   * names plus, at most, some of the built-in alias names.
   */
  lemma InitFromTables(items: seq<(string, string)>)
    ensures var q := InitFrom(Empty, items);
      && q.sources == ToMap(items)
      && q.aliases == map[
           "apple" := "appletv", "appletv" := "apple", "amazon" := "amazontv", "amazontv" := "amazon",
           "radio" := "tuner", "tuner" := "radio", "iradio" := "internet radio", "internet radio" := "iradio"]
      && SeededNames(items) <= q.inverse.Keys <= SeededNames(items) + BuiltinAliasNames
      && (forall n :: n in Seed(Empty, items).inverse ==> q.inverse[n] == Seed(Empty, items).inverse[n])
  {
    var r0 := Seed(Empty, items);
    var q := InitFrom(Empty, items);
    assert q.sources == ToMap(items) by {
      SeedSources(Empty, items);
      AddDefaultAliasesKeeps(r0);
    }
    assert q.aliases == map[
           "apple" := "appletv", "appletv" := "apple", "amazon" := "amazontv", "amazontv" := "amazon",
           "radio" := "tuner", "tuner" := "radio", "iradio" := "internet radio", "internet radio" := "iradio"] by {
      SeedSources(Empty, items);
      AddDefaultAliasesPairs(r0);
    }
    assert SeededNames(items) <= q.inverse.Keys <= SeededNames(items) + BuiltinAliasNames by {
      SeedInverseKeys(Empty, items);
      AddDefaultAliasesKeeps(r0);
    }
    AddDefaultAliasesKeeps(r0);
  }

  /** No two items of the table share a code. */
  predicate DistinctCodes(items: seq<(string, string)>) {
    forall i, j :: 0 <= i < j < |items| ==> items[i].0 != items[j].0
  }

  /** No two items of the table share a name, once lower-cased. */
  predicate DistinctNames(items: seq<(string, string)>) {
    forall i, j :: 0 <= i < j < |items| ==> Lower(items[i].1) != Lower(items[j].1)
  }

  /**
   * `init_from_map` on empty tables, from a table without repeated codes or
   * names: every code has its name, and every name, lower-cased, selects its
   * code.
   */
  lemma InitFromEntries(items: seq<(string, string)>)
    requires DistinctCodes(items) && DistinctNames(items)
    ensures var q := InitFrom(Empty, items);
      forall i :: 0 <= i < |items| ==>
        && Lookup(q, items[i].0) == Some(items[i].1)
        && Lower(items[i].1) in q.inverse && q.inverse[Lower(items[i].1)] == items[i].0 + "FN"
  {
    InitFromTables(items);
    forall i | 0 <= i < |items|
      ensures Lookup(InitFrom(Empty, items), items[i].0) == Some(items[i].1)
      ensures Lower(items[i].1) in InitFrom(Empty, items).inverse
      ensures InitFrom(Empty, items).inverse[Lower(items[i].1)] == items[i].0 + "FN"
    {
      SeedInverseUnique(Empty, items, i);
      ToMapLast(items, i);
    }
  }

  /** `dict(items)[k]` is the value of the last item with key `k`. */
  lemma {:induction false} ToMapLast(items: seq<(string, string)>, i: nat)
    requires i < |items| && forall j :: i < j < |items| ==> items[j].0 != items[i].0
    ensures items[i].0 in ToMap(items) && ToMap(items)[items[i].0] == items[i].1
    decreases |items|
  {
    if i != |items| - 1 {
      ToMapLast(items[..|items| - 1], i);
    }
  }

  /** ... and a name that no other item shares (once lower-cased) selects its own code. */
  lemma {:induction false} SeedInverseUnique(r: Registry, items: seq<(string, string)>, i: nat)
    requires i < |items|
    requires forall j :: 0 <= j < |items| && j != i ==> Lower(items[j].1) != Lower(items[i].1)
    ensures Lower(items[i].1) in Seed(r, items).inverse
    ensures Seed(r, items).inverse[Lower(items[i].1)] == items[i].0 + "FN"
    decreases |items|
  {
    var n := |items|;
    if i != n - 1 {
      SeedInverseUnique(r, items[..n - 1], i);
    }
  }

  // ---------------------------------------------------------------------------
  // The class

  /** A SourceMap: the three tables as fields, updated in place. */
  class SourceMap {
    var sourceMap: map<string, string>
    var inverseMap: map<string, string>
    var aliasMap: map<string, string>

    function State(): Registry
      reads this
    {
      Registry(sourceMap, inverseMap, aliasMap)
    }

    /** `__init__`: empty tables, then the default table. */
    constructor()
      ensures State() == Initial() && Valid(State())
    {
      sourceMap, inverseMap, aliasMap := map[], map[], map[];
      new;
      InitFromMap(DefaultInputSources);
      InitialValid();
    }

    /** `init_from_map`: every item of the table, in order, then the built-in aliases. */
    method InitFromMap(items: seq<(string, string)>)
      requires Valid(State())
      modifies this
      ensures State() == InitFrom(old(State()), items) && Valid(State())
    {
      for i := 0 to |items|
        invariant State() == Seed(old(State()), items[..i])
      {
        var (k, v) := items[i];
        assert items[..i + 1][..i] == items[..i];
        sourceMap := sourceMap[k := v];
        RegisterReverseSource(k, v);
      }
      assert items[..|items|] == items;
      SeedValid(old(State()), items);
      AddAliases();
    }

    /** `get` */
    function Get(id: string): (name: Option<string>)
      reads this
      ensures name == Lookup(State(), id)
    {
      if id in sourceMap then Some(sourceMap[id]) else None
    }

    method RegisterReverseSource(k: string, v: string)
      modifies this
      ensures State() == RegisterReverse(old(State()), k, v)
    {
      inverseMap := inverseMap[Lower(v) := k + "FN"];
    }

    method UpdateSource(name: string, id: string)
      requires Valid(State())
      modifies this
      ensures State() == Updated(old(State()), name, id) && Valid(State())
    {
      sourceMap := sourceMap[id := name];
      RegisterReverseSource(id, name);
      var alias := Py.Get(aliasMap, name, "");
      if alias != "" {
        CheckAliases(name, alias);
      }
      UpdatedValid(old(State()), name, id);
    }

    method AddAlias(a: string, b: string)
      requires Valid(State())
      modifies this
      ensures State() == WithAlias(old(State()), a, b) && Valid(State())
    {
      var la, lb := Lower(a), Lower(b);
      aliasMap := aliasMap[la := lb];
      aliasMap := aliasMap[lb := la];
      CheckAliases(la, lb);
      AddAliasValid(old(State()), a, b);
    }

    method CheckAliases(a: string, b: string)
      modifies this
      ensures State() == Propagate(old(State()), a, b)
    {
      if a !in inverseMap && Resolves(inverseMap, b) {
        inverseMap := inverseMap[a := inverseMap[b]];
      } else if b !in inverseMap && Resolves(inverseMap, a) {
        inverseMap := inverseMap[b := inverseMap[a]];
      }
    }

    method AddAliases()
      requires Valid(State())
      modifies this
      ensures State() == AddDefaultAliases(old(State())) && Valid(State())
    {
      AddAlias("apple", "appletv");
      AddAlias("amazon", "amazontv");
      AddAlias("radio", "tuner");
      AddAlias("iradio", "internet radio");
    }

    method LearnInputFrom(s: string)
      requires Valid(State())
      modifies this
      ensures State() == Learn(old(State()), s) && Valid(State())
    {
      var id := Slice(s, 0, 2);
      var name := From(s, 3);
      if Get(id) != Some(name) {
        UpdateSource(name, id);
      }
    }
  }
}
