/**
 * The registry tests of the repository (test_sources.py), stated as lemmas
 * about a new SourceMap, and the input that shows the NameError of
 * sources.py:110.
 *
 * Facts about the 29-item default table are proved once, by index, through a
 * short signature of each lower-cased name (length, first and last letter),
 * and the tests themselves are proved for any table with those facts.
 */
module TestSources {
  import opened Py
  import opened Sources

  // ---------------------------------------------------------------------------
  // The default table

  /** Length, first and last character: enough to tell the default names apart. */
  function Sig(n: string): (int, char, char) {
    if n == [] then (0, ' ', ' ') else (|n|, n[0], n[|n| - 1])
  }

  /** The signatures of the lower-cased default names, item by item. */
  const DefaultSigs: seq<(int, char, char)> := [
    (5, 'p', 'o'), (2, 'c', 'd'), (5, 't', 'r'), (3, 'd', 'd'), (2, 't', 'v'), (7, 's', 'l'), (5, 'v', 'o'), (11, 'm', 'n'),
    (7, 'u', 'c'), (7, 'd', 'r'), (8, 'i', 'b'), (5, 'h', '1'), (5, 'h', '2'), (5, 'h', '3'), (5, 'h', '4'), (5, 'h', '5'),
    (5, 'h', '6'), (2, 'b', 'd'), (7, 'n', 'k'), (4, 'h', 'i'), (12, 'a', 't'), (5, 'h', '7'), (14, 'i', 'o'), (8, 's', 'm'),
    (7, 'p', 'a'), (12, 'm', 'r'), (9, 'f', 's'), (3, 'd', 'r'), (3, 'm', 'l')]

  lemma SigLower(s: string)
    ensures Sig(Lower(s)) == if s == [] then (0, ' ', ' ') else (|s|, LowerChar(s[0]), LowerChar(s[|s| - 1]))
  {
  }

  lemma DefaultSigs0()
    ensures forall j :: 0 <= j < 10 ==> Sig(Lower(DefaultInputSources[j].1)) == DefaultSigs[j]
  {
    forall j | 0 <= j < 10 ensures Sig(Lower(DefaultInputSources[j].1)) == DefaultSigs[j] {
      SigLower(DefaultInputSources[j].1);
    }
  }

  lemma DefaultSigs1()
    ensures forall j :: 10 <= j < 20 ==> Sig(Lower(DefaultInputSources[j].1)) == DefaultSigs[j]
  {
    forall j | 10 <= j < 20 ensures Sig(Lower(DefaultInputSources[j].1)) == DefaultSigs[j] {
      SigLower(DefaultInputSources[j].1);
    }
  }

  lemma DefaultSigs2()
    ensures forall j :: 20 <= j < 29 ==> Sig(Lower(DefaultInputSources[j].1)) == DefaultSigs[j]
  {
    forall j | 20 <= j < 29 ensures Sig(Lower(DefaultInputSources[j].1)) == DefaultSigs[j] {
      SigLower(DefaultInputSources[j].1);
    }
  }

  /** Each default name, lower-cased, has the signature listed for it. */
  lemma DefaultSigsHold()
    ensures |DefaultSigs| == |DefaultInputSources| == 29
    ensures forall j :: 0 <= j < 29 ==> Sig(Lower(DefaultInputSources[j].1)) == DefaultSigs[j]
  {
    DefaultSigs0();
    DefaultSigs1();
    DefaultSigs2();
  }

  lemma DefaultSigsDistinct0()
    ensures forall i, j :: 0 <= i < 5 && i < j < |DefaultSigs| ==> DefaultSigs[i] != DefaultSigs[j]
  {
  }

  lemma DefaultSigsDistinct1()
    ensures forall i, j :: 5 <= i < 10 && i < j < |DefaultSigs| ==> DefaultSigs[i] != DefaultSigs[j]
  {
  }

  lemma DefaultSigsDistinct2()
    ensures forall i, j :: 10 <= i < 17 && i < j < |DefaultSigs| ==> DefaultSigs[i] != DefaultSigs[j]
  {
  }

  lemma DefaultSigsDistinct3()
    ensures forall i, j :: 17 <= i < j < |DefaultSigs| ==> DefaultSigs[i] != DefaultSigs[j]
  {
  }

  /** The codes of the default table, as digit pairs. */
  const DefaultCodeDigits: seq<(char, char)> := [
    ('0', '0'), ('0', '1'), ('0', '2'), ('0', '4'), ('0', '5'), ('0', '6'), ('1', '0'), ('1', '2'), ('1', '3'), ('1', '5'),
    ('1', '7'), ('1', '9'), ('2', '0'), ('2', '1'), ('2', '2'), ('2', '3'), ('2', '4'), ('2', '5'), ('2', '6'), ('3', '1'),
    ('3', '3'), ('3', '4'), ('3', '8'), ('4', '0'), ('4', '1'), ('4', '4'), ('4', '5'), ('4', '7'), ('4', '8')]

  /** Two-digit codes in increasing order. */
  predicate DigitsBefore(a: (char, char), b: (char, char)) {
    a.0 < b.0 || (a.0 == b.0 && a.1 < b.1)
  }

  lemma DefaultCodeDigitsHold()
    ensures forall j :: 0 <= j < 29 ==>
      |DefaultInputSources[j].0| == 2 && (DefaultInputSources[j].0[0], DefaultInputSources[j].0[1]) == DefaultCodeDigits[j]
  {
  }

  /** The default codes increase, so no code repeats. */
  lemma DefaultCodesDistinct()
    ensures DistinctCodes(DefaultInputSources)
  {
    DefaultCodeDigitsHold();
    assert forall i :: 0 <= i < 28 ==> DigitsBefore(DefaultCodeDigits[i], DefaultCodeDigits[i + 1]);
    forall i, j | 0 <= i < j < |DefaultInputSources| ensures DefaultInputSources[i].0 != DefaultInputSources[j].0 {
      CodeDigitsIncrease(i, j);
    }
  }

  lemma {:induction false} CodeDigitsIncrease(i: nat, j: nat)
    requires i < j < 29
    requires forall k :: 0 <= k < 28 ==> DigitsBefore(DefaultCodeDigits[k], DefaultCodeDigits[k + 1])
    ensures DigitsBefore(DefaultCodeDigits[i], DefaultCodeDigits[j])
    decreases j - i
  {
    if i + 1 < j {
      CodeDigitsIncrease(i + 1, j);
    }
  }

  /** The default table repeats no code and no lower-cased name. */
  lemma DefaultsDistinct()
    ensures DistinctCodes(DefaultInputSources) && DistinctNames(DefaultInputSources)
  {
    DefaultSigsHold();
    DefaultSigsDistinct0();
    DefaultSigsDistinct1();
    DefaultSigsDistinct2();
    DefaultSigsDistinct3();
    forall i, j | 0 <= i < j < |DefaultInputSources|
      ensures Lower(DefaultInputSources[i].1) != Lower(DefaultInputSources[j].1)
    {
      assert DefaultSigs[i] != DefaultSigs[j];
    }
    DefaultCodesDistinct();
  }

  /** A string whose signature no default name has is no default name, lower-cased. */
  lemma NotADefaultName(t: string)
    requires Sig(t) !in DefaultSigs
    ensures t !in SeededNames(DefaultInputSources)
  {
    DefaultSigsHold();
    forall p | p in DefaultInputSources ensures Lower(p.1) != t {
      var j :| 0 <= j < |DefaultInputSources| && DefaultInputSources[j] == p;
      assert Sig(Lower(p.1)) == DefaultSigs[j];
    }
  }

  // ---------------------------------------------------------------------------
  // A new SourceMap

  /** After construction every default code has its name, and its name, lower-cased, selects it. */
  lemma InitialEntries()
    ensures forall i :: 0 <= i < |DefaultInputSources| ==>
      var (code, name) := DefaultInputSources[i];
      && Lookup(Initial(), code) == Some(name)
      && Lower(name) in Initial().inverse && Initial().inverse[Lower(name)] == code + "FN"
  {
    DefaultsDistinct();
    InitFromEntries(DefaultInputSources);
  }

  /** test_init: a new SourceMap names code "05" "TV", and "tv" selects it with "05FN". */
  lemma InitialTv()
    ensures Lookup(Initial(), "05") == Some("TV")
    ensures "tv" in Initial().inverse && Initial().inverse["tv"] == "05FN"
  {
    assert 4 < |DefaultInputSources| && DefaultInputSources[4] == ("05", "TV") by {
      DefaultSigsHold();
    }
    assert Lower("TV") == "tv" by {
      assert "TV"[0] == 'T' && "TV"[1] == 'V';
    }
    InitialEntries();
  }

  /** A name that is neither a table name nor a built-in alias name selects nothing after `init_from_map`. */
  lemma TableUnnamed(items: seq<(string, string)>, t: string)
    requires t !in SeededNames(items) && t !in BuiltinAliasNames
    ensures t !in InitFrom(Empty, items).inverse
  {
    SeedInverseKeys(Empty, items);
    AddDefaultAliasesKeeps(Seed(Empty, items));
  }

  /** test_aliases, on any registry on which "tv" selects something and neither new name selects anything. */
  lemma RegistryAliases(r: Registry)
    requires Resolves(r.inverse, "tv") && "television" !in r.inverse && "tele" !in r.inverse
    ensures var q := WithAlias(WithAlias(r, "television", "TV"), "tele", "television");
      && "television" in q.inverse && q.inverse["television"] == r.inverse["tv"]
      && "tele" in q.inverse && q.inverse["tele"] == r.inverse["tv"]
  {
    LowerNoUpper("television");
    LowerNoUpper("tele");
    assert Lower("TV") == "tv";
    AliasChain(r, "TV", "television", "tele");
  }

  /** test_aliases: "television" aliased to "TV", then "tele" to "television": both select what "tv" selects. */
  lemma TestAliases()
    ensures "tv" in Initial().inverse
    ensures var q := WithAlias(WithAlias(Initial(), "television", "TV"), "tele", "television");
      && "television" in q.inverse && q.inverse["television"] == Initial().inverse["tv"]
      && "tele" in q.inverse && q.inverse["tele"] == Initial().inverse["tv"]
  {
    InitialTv();
    TelevisionUnnamed();
    TeleUnnamed();
    RegistryAliases(Initial());
  }

  lemma TelevisionNotDefault()
    ensures "television" !in SeededNames(DefaultInputSources)
  {
    NotADefaultName("television");
  }

  lemma TeleNotDefault()
    ensures "tele" !in SeededNames(DefaultInputSources)
  {
    NotADefaultName("tele");
  }

  lemma NewNamesNotBuiltin()
    ensures "television" !in BuiltinAliasNames && "tele" !in BuiltinAliasNames
  {
  }

  lemma TelevisionUnnamed()
    ensures "television" !in Initial().inverse
  {
    TelevisionNotDefault();
    NewNamesNotBuiltin();
    TableUnnamed(DefaultInputSources, "television");
  }

  lemma TeleUnnamed()
    ensures "tele" !in Initial().inverse
  {
    TeleNotDefault();
    NewNamesNotBuiltin();
    TableUnnamed(DefaultInputSources, "tele");
  }

  lemma AppleUnnamed()
    ensures "apple" !in SeededNames(DefaultInputSources)
  {
    NotADefaultName("apple");
  }

  lemma AppleTvUnnamed()
    ensures "appletv" !in SeededNames(DefaultInputSources)
  {
    NotADefaultName("appletv");
  }

  /** The apple pair selects nothing after `init_from_map` from a table that names neither. */
  lemma TableNoApple(items: seq<(string, string)>)
    requires "apple" !in SeededNames(items) && "appletv" !in SeededNames(items)
    ensures "apple" !in InitFrom(Empty, items).inverse && "appletv" !in InitFrom(Empty, items).inverse
  {
    SeedInverseKeys(Empty, items);
    AddDefaultAliasesNoApple(Seed(Empty, items));
  }

  /** Neither name of the apple pair selects a source in a new SourceMap. */
  lemma NoAppleCommand()
    ensures "apple" !in Initial().inverse && "appletv" !in Initial().inverse
  {
    AppleUnnamed();
    AppleTvUnnamed();
    TableNoApple(DefaultInputSources);
  }

  /** Learning "50 apple" on any registry without code "50" whose apple alias selects nothing. */
  lemma RegistryLearnApple(r: Registry)
    requires "50" !in r.sources && "apple" in r.aliases && r.aliases["apple"] == "appletv"
    requires "appletv" !in r.inverse
    ensures LearnAsWritten(r, "50 apple") == Err(NameError)
    ensures var q := Learn(r, "50 apple");
      "appletv" in q.inverse && q.inverse["appletv"] == "50FN"
  {
    var s := "50 apple";
    assert LearnedId(s) == "50" && LearnedName(s) == "apple";
    LowerNoUpper("apple");
    UpdateSourceNameError(r, "apple", "50");
  }

  /** `init_from_map` from a table without code "50" leaves "50" unknown and aliases "apple" to "appletv". */
  lemma TableNo50(items: seq<(string, string)>)
    requires forall j :: 0 <= j < |items| ==> items[j].0 != "50"
    ensures "50" !in InitFrom(Empty, items).sources
    ensures "apple" in InitFrom(Empty, items).aliases && InitFrom(Empty, items).aliases["apple"] == "appletv"
  {
    SeedSources(Empty, items);
    ToMapKeys(items);
    AddDefaultAliasesKeeps(Seed(Empty, items));
    AddDefaultAliasesPairs(Seed(Empty, items));
  }

  /** No default code is "50". */
  lemma No50()
    ensures forall j :: 0 <= j < |DefaultInputSources| ==> DefaultInputSources[j].0 != "50"
  {
    DefaultCodeDigitsHold();
    forall j | 0 <= j < |DefaultInputSources| ensures DefaultInputSources[j].0 != "50" {
      assert DefaultCodeDigits[j] != ('5', '0');
    }
  }

  /**
   * Learning "50 apple" on a new SourceMap: "apple" is an alias of "appletv",
   * which has no select command yet, so the code as written raises NameError;
   * the corrected propagation makes "appletv" select code 50.
   */
  lemma LearnAppleNameError()
    ensures LearnAsWritten(Initial(), "50 apple") == Err(NameError)
    ensures var q := Learn(Initial(), "50 apple");
      "appletv" in q.inverse && q.inverse["appletv"] == "50FN"
  {
    No50();
    TableNo50(DefaultInputSources);
    NoAppleCommand();
    RegistryLearnApple(Initial());
  }

  // ---------------------------------------------------------------------------
  // add_alias and init_from_map as written

  /** `add_alias("TV", "television")` on any registry on which "tv" selects code 05 and "television" nothing. */
  lemma RegistryTvAlias(r: Registry)
    requires "tv" in r.inverse && r.inverse["tv"] == "05FN" && "television" !in r.inverse
    ensures WithAliasAsWritten(r, "TV", "television") == Err(NameError)
    ensures var q := WithAlias(r, "TV", "television");
      "television" in q.inverse && q.inverse["television"] == "05FN"
  {
    LowerNoUpper("television");
    assert Lower("TV") == "tv" by {
      assert "TV"[0] == 'T' && "TV"[1] == 'V';
    }
    AddAliasAsWrittenAgrees(r, "TV", "television");
  }

  /**
   * `add_alias("TV", "television")` on a new SourceMap: "tv" selects code 05
   * and "television" nothing, so the code as written raises NameError; the
   * corrected propagation makes "television" select code 05.
   */
  lemma AddTvAliasNameError()
    ensures WithAliasAsWritten(Initial(), "TV", "television") == Err(NameError)
    ensures var q := WithAlias(Initial(), "TV", "television");
      "television" in q.inverse && q.inverse["television"] == "05FN"
  {
    InitialTv();
    TelevisionUnnamed();
    RegistryTvAlias(Initial());
  }

  lemma LowerApple()
    ensures Lower("APPLE") == "apple"
  {
    var a := "APPLE";
    assert a[0] == 'A' && a[1] == 'P' && a[2] == 'P' && a[3] == 'L' && a[4] == 'E';
  }

  /** The table `{"50": "APPLE"}` seeded into a registry where "appletv" selects nothing. */
  lemma RegistrySeedApple(r: Registry)
    requires "appletv" !in r.inverse
    ensures var r0 := Seed(r, [("50", "APPLE")]);
      && "apple" in r0.inverse && r0.inverse["apple"] == "50FN"
      && "appletv" !in r0.inverse
  {
    var items := [("50", "APPLE")];
    assert Seed(r, items) == SetSource(r, "50", "APPLE") by {
      assert items[..0] == [];
    }
    LowerApple();
  }

  /** ... and into a new SourceMap. */
  lemma SeedApple()
    ensures var r0 := Seed(Initial(), [("50", "APPLE")]);
      && "apple" in r0.inverse && r0.inverse["apple"] == "50FN"
      && "appletv" !in r0.inverse
  {
    NoAppleCommand();
    RegistrySeedApple(Initial());
  }

  /**
   * Loading the table `{"50": "APPLE"}` into a new SourceMap (sources.py:76):
   * the first built-in pair finds "apple" resolved and "appletv" not, so
   * `add_aliases` as written raises NameError; the corrected code makes
   * "appletv" select code 50 as well.
   */
  lemma LoadAppleNameError()
    ensures InitFromAsWritten(Initial(), [("50", "APPLE")]) == Err(NameError)
    ensures var q := InitFrom(Initial(), [("50", "APPLE")]);
      "appletv" in q.inverse && q.inverse["appletv"] == "50FN"
  {
    var r0 := Seed(Initial(), [("50", "APPLE")]);
    SeedApple();
    LowerBuiltinNames();
    AddAliasAsWrittenAgrees(r0, "apple", "appletv");
    var r1 := WithAlias(r0, "apple", "appletv");
    AddAliasOnlyAdds(r1, "amazon", "amazontv");
    var r2 := WithAlias(r1, "amazon", "amazontv");
    AddAliasOnlyAdds(r2, "radio", "tuner");
    var r3 := WithAlias(r2, "radio", "tuner");
    AddAliasOnlyAdds(r3, "iradio", "internet radio");
  }

  lemma AmazonUnnamed()
    ensures "amazon" !in SeededNames(DefaultInputSources)
  {
    NotADefaultName("amazon");
  }

  lemma AmazonTvUnnamed()
    ensures "amazontv" !in SeededNames(DefaultInputSources)
  {
    NotADefaultName("amazontv");
  }

  lemma RadioUnnamed()
    ensures "radio" !in SeededNames(DefaultInputSources)
  {
    NotADefaultName("radio");
  }

  lemma IradioUnnamed()
    ensures "iradio" !in SeededNames(DefaultInputSources)
  {
    NotADefaultName("iradio");
  }

  /** A name that is not a table name, lower-cased, selects nothing once the table is seeded into empty tables. */
  lemma SeedUnnamed(items: seq<(string, string)>, t: string)
    requires t !in SeededNames(items)
    ensures t !in Seed(Empty, items).inverse
  {
    SeedInverseKeys(Empty, items);
  }

  /** Of the built-in alias names, none but "tuner" and "internet radio" is a default name. */
  lemma SeedDefaultsUnaliased()
    ensures var r0 := Seed(Empty, DefaultInputSources);
      && "apple" !in r0.inverse && "appletv" !in r0.inverse
      && "amazon" !in r0.inverse && "amazontv" !in r0.inverse
      && "radio" !in r0.inverse && "iradio" !in r0.inverse
  {
    AppleUnnamed();
    AppleTvUnnamed();
    AmazonUnnamed();
    AmazonTvUnnamed();
    RadioUnnamed();
    IradioUnnamed();
    SeedUnnamed(DefaultInputSources, "apple");
    SeedUnnamed(DefaultInputSources, "appletv");
    SeedUnnamed(DefaultInputSources, "amazon");
    SeedUnnamed(DefaultInputSources, "amazontv");
    SeedUnnamed(DefaultInputSources, "radio");
    SeedUnnamed(DefaultInputSources, "iradio");
  }

  /** The default name of item `i`, lower-cased, selects its code once the default table is seeded. */
  lemma SeedDefaultSelects(i: nat, code: string, name: string)
    requires i < |DefaultInputSources| && DefaultInputSources[i] == (code, name)
    ensures Lower(name) in Seed(Empty, DefaultInputSources).inverse
    ensures Seed(Empty, DefaultInputSources).inverse[Lower(name)] == code + "FN"
  {
    DefaultsDistinct();
    SeedInverseUnique(Empty, DefaultInputSources, i);
  }

  lemma LowerTuner()
    ensures Lower("TUNER") == "tuner"
  {
    var t := "TUNER";
    assert t[0] == 'T' && t[1] == 'U' && t[2] == 'N' && t[3] == 'E' && t[4] == 'R';
  }

  lemma LowerInternetRadio()
    ensures Lower("INTERNET RADIO") == "internet radio"
  {
    var t := "INTERNET RADIO";
    assert t[0] == 'I' && t[1] == 'N' && t[2] == 'T' && t[3] == 'E' && t[4] == 'R' && t[5] == 'N' && t[6] == 'E';
    assert t[7] == 'T' && t[8] == ' ' && t[9] == 'R' && t[10] == 'A' && t[11] == 'D' && t[12] == 'I' && t[13] == 'O';
  }

  /** Once the default table is seeded, "tuner" selects code 02 and "internet radio" code 38. */
  lemma SeedDefaultsRadio()
    ensures var r0 := Seed(Empty, DefaultInputSources);
      && "tuner" in r0.inverse && r0.inverse["tuner"] == "02FN"
      && "internet radio" in r0.inverse && r0.inverse["internet radio"] == "38FN"
  {
    assert 22 < |DefaultInputSources| && DefaultInputSources[2] == ("02", "TUNER") && DefaultInputSources[22] == ("38", "INTERNET RADIO") by {
      DefaultSigsHold();
    }
    SeedDefaultSelects(2, "02", "TUNER");
    SeedDefaultSelects(22, "38", "INTERNET RADIO");
    LowerTuner();
    LowerInternetRadio();
  }

  /**
   * A new SourceMap, as written, does not raise: no built-in pair finds its
   * first name resolved and its second unknown, so the constructor ends where
   * the corrected one does.
   */
  lemma InitialAsWrittenOk()
    ensures InitFromAsWritten(Empty, DefaultInputSources) == Ok(Initial())
  {
    var r0 := Seed(Empty, DefaultInputSources);
    SeedDefaultsUnaliased();
    SeedDefaultsRadio();
    LowerBuiltinNames();
    AddAliasAsWrittenAgrees(r0, "apple", "appletv");
    AddAliasNeither(r0, "apple", "appletv");
    var r1 := WithAlias(r0, "apple", "appletv");
    AddAliasAsWrittenAgrees(r1, "amazon", "amazontv");
    AddAliasNeither(r1, "amazon", "amazontv");
    var r2 := WithAlias(r1, "amazon", "amazontv");
    AddAliasAsWrittenAgrees(r2, "radio", "tuner");
    AddAliasOnlyAdds(r2, "radio", "tuner");
    var r3 := WithAlias(r2, "radio", "tuner");
    AddAliasAsWrittenAgrees(r3, "iradio", "internet radio");
  }
}
