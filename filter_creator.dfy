/**
 * `FilterCreator`: a filter configuration built from the module and
 * feature selections a THOR log announces in its messages.
 */
module FilterCreation {
  import opened Wrappers
  import opened Dicts
  import opened JsonValues
  import opened Text
  import opened Errors
  import opened Seqs
  import Constants

  const SELECTED_MODULES := "Selected modules:"
  const DESELECTED_MODULES := "Deselected modules:"
  const SELECTED_FEATURES := "Selected features:"
  const DESELECTED_FEATURES := "Deselected features:"

  /** The `config["filters"]` dict: levels, and include/exclude lists of modules and features. */
  datatype FilterConfig = FilterConfig(
    levels: seq<string>,
    modulesInclude: seq<string>, modulesExclude: seq<string>,
    featuresInclude: seq<string>, featuresExclude: seq<string>)

  /** The configuration before any message is read. */
  function InitialConfig(): (c: FilterConfig)
    ensures c.levels == Constants.DEFAULT_LEVELS
    ensures c.modulesInclude == [] && c.modulesExclude == [] && c.featuresInclude == [] && c.featuresExclude == []
  {
    FilterConfig(Constants.DEFAULT_LEVELS, [], [], [], [])
  }

  /** The nested dict written out as YAML. */
  function ConfigJson(c: FilterConfig): Json
  {
    JObj([("filters", JObj([
      ("levels", JArr(Strings(c.levels))),
      ("modules", JObj([("include", JArr(Strings(c.modulesInclude))), ("exclude", JArr(Strings(c.modulesExclude)))])),
      ("features", JObj([("include", JArr(Strings(c.featuresInclude))), ("exclude", JArr(Strings(c.featuresExclude)))]))]))])
  }

  function Strings(xs: seq<string>): (r: seq<Json>)
    ensures |r| == |xs|
    ensures forall i | 0 <= i < |xs| :: r[i] == JStr(xs[i])
  {
    Map(s => JStr(s), xs)
  }

  /** `message[len(prefix):]`, which is empty when the message is shorter. */
  function After(message: string, n: nat): (r: string)
  {
    if n <= |message| then message[n..] else ""
  }

  predicate NonEmpty(s: string)
  {
    s != ""
  }

  /**
   * `_parse_items`: the comma-separated pieces after the prefix, each
   * stripped, the empty ones dropped.
   */
  function ParseItems(prefix: string, message: string): (r: seq<string>)
    ensures forall x | x in r :: x != "" && IsStripped(x) && ',' !in x
  {
    var modulesFeatures := Strip(After(message, |prefix|));
    var pieces := Split(modulesFeatures, ',');
    var stripped := Map(Strip, pieces);
    StrippedPieces(pieces);
    Filter(stripped, NonEmpty)
  }

  /** Stripped comma-free pieces are stripped and comma-free. */
  lemma StrippedPieces(pieces: seq<string>)
    requires forall i | 0 <= i < |pieces| :: ',' !in pieces[i]
    ensures forall x | x in Map(Strip, pieces) :: IsStripped(x) && ',' !in x
  {
    forall x | x in Map(Strip, pieces)
      ensures IsStripped(x) && ',' !in x
    {
      var i :| 0 <= i < |pieces| && Map(Strip, pieces)[i] == x;
      StripWithin(pieces[i]);
    }
  }

  /** `strip` only removes characters. */
  lemma StripWithin(s: string)
    ensures forall c | c in Strip(s) :: c in s
  {
    var l := LStrip(s);
    assert l == s[|s| - |l|..];
    assert Strip(s) == l[..|Strip(s)|];
  }

  /** `" " + x`, the piece that follows a comma in `", ".join(...)`. */
  function Spaced(x: string): string
  {
    " " + x
  }

  /** The pieces `", ".join(xs)` splits into at its commas. */
  function Padded(xs: seq<string>): seq<string>
  {
    if xs == [] then [] else [xs[0]] + Map(Spaced, xs[1..])
  }

  lemma JoinPrefix(w: string, ys: seq<string>, sep: string)
    requires ys != []
    ensures w + Join(ys, sep) == Join([w + ys[0]] + ys[1..], sep)
  {
    var zs := [w + ys[0]] + ys[1..];
    if |ys| > 1 {
      assert zs[1..] == ys[1..];
    }
  }

  lemma {:induction false} JoinPadded(xs: seq<string>)
    ensures Join(xs, ", ") == Join(Padded(xs), ",")
  {
    if |xs| >= 2 {
      JoinPadded(xs[1..]);
      var tail := Padded(xs[1..]);
      assert tail == [xs[1]] + Map(Spaced, xs[2..]) by {
        assert xs[1..][1..] == xs[2..];
      }
      JoinPrefix(" ", tail, ",");
      MapCons(Spaced, xs[1], xs[2..]);
      assert xs[1..] == [xs[1]] + xs[2..];
      assert Padded(xs) == [xs[0]] + ([" " + xs[1]] + Map(Spaced, xs[2..]));
      JoinCons(xs[0], [" " + xs[1]] + Map(Spaced, xs[2..]), ",");
      assert Join(xs, ", ") == xs[0] + ", " + Join(xs[1..], ", ");
    } else if |xs| == 1 {
      assert Padded(xs) == xs;
    }
  }

  /** A join of non-empty stripped items is stripped. */
  lemma {:induction false} JoinStripped(xs: seq<string>, sep: string)
    requires xs != []
    requires forall i | 0 <= i < |xs| :: xs[i] != "" && IsStripped(xs[i])
    ensures Join(xs, sep) != [] && IsStripped(Join(xs, sep))
    ensures Join(xs, sep)[0] == xs[0][0]
  {
    if |xs| > 1 {
      JoinStripped(xs[1..], sep);
      var rest := Join(xs[1..], sep);
      assert Join(xs, sep) == xs[0] + sep + rest;
      assert (xs[0] + sep + rest)[|xs[0] + sep + rest| - 1] == rest[|rest| - 1];
    }
  }

  /** The pieces of a join, stripped, are the items again. */
  lemma StripPieces(items: seq<string>)
    requires forall i | 0 <= i < |items| :: items[i] != "" && IsStripped(items[i])
    ensures Map(Strip, Padded(items)) == items
  {
    var pieces := Padded(items);
    if items != [] {
      ConsAt(items[0], Map(Spaced, items[1..]));
    }
    forall i | 0 <= i < |items|
      ensures Strip(pieces[i]) == items[i]
    {
      if i == 0 {
        StripStripped(items[0]);
      } else {
        assert pieces[i] == Spaced(items[1..][i - 1]) == " " + items[i];
        StripSpaced(items[i]);
      }
    }
  }

  /** The text after the prefix and its space, stripped, is the join itself. */
  lemma StripJoined(items: seq<string>)
    requires items != []
    requires forall i | 0 <= i < |items| :: items[i] != "" && IsStripped(items[i])
    ensures Strip(" " + Join(items, ", ")) == Join(items, ", ")
  {
    JoinStripped(items, ", ");
    StripSpaced(Join(items, ", "));
  }

  lemma StripSpaced(s: string)
    requires s != [] && IsStripped(s)
    ensures Strip(" " + s) == s
  {
    LStripPadded(" ", s);
    RStripPadded(s, "");
    assert s + "" == s;
  }

  /** The join splits back into its padded pieces. */
  lemma SplitJoined(items: seq<string>)
    requires items != []
    requires forall i | 0 <= i < |items| :: ',' !in items[i]
    ensures Split(Join(items, ", "), ',') == Padded(items)
  {
    JoinPadded(items);
    var pieces := Padded(items);
    forall i | 0 <= i < |pieces|
      ensures ',' !in pieces[i]
    {
      if i > 0 {
        assert pieces[i] == " " + items[i];
      }
    }
    SplitJoin(pieces, ',');
  }

  /**
   * The message THOR writes, `prefix + " " + ", ".join(items)`, gives back
   * exactly its items, for items that are non-empty, stripped and free of
   * commas.
   */
  lemma ParseItemsRoundTrip(prefix: string, items: seq<string>)
    requires forall i | 0 <= i < |items| :: items[i] != "" && IsStripped(items[i]) && ',' !in items[i]
    ensures ParseItems(prefix, prefix + " " + Join(items, ", ")) == items
  {
    ParseItemsAfterPrefix(prefix, Join(items, ", "));
    if items == [] {
      assert " " + Join(items, ", ") == " ";
      NoItems();
    } else {
      SomeItems(items);
    }
  }

  lemma SomeItems(items: seq<string>)
    requires items != []
    requires forall i | 0 <= i < |items| :: items[i] != "" && IsStripped(items[i]) && ',' !in items[i]
    ensures Filter(Map(Strip, Split(Strip(" " + Join(items, ", ")), ',')), NonEmpty) == items
  {
    StripJoined(items);
    SplitJoined(items);
    StripPieces(items);
    FilterAll(items, NonEmpty);
  }

  /** A bare prefix announces nothing. */
  lemma NoItems()
    ensures Filter(Map(Strip, Split(Strip(" "), ',')), NonEmpty) == []
  {
    assert Strip(" ") == "" by {
      assert RStrip(" ") == "";
    }
    assert Split("", ',') == [""];
    assert Map(Strip, [""]) == [Strip("")];
  }

  /** What follows the prefix and one space is what gets split. */
  lemma ParseItemsAfterPrefix(prefix: string, rest: string)
    ensures ParseItems(prefix, prefix + " " + rest) == Filter(Map(Strip, Split(Strip(" " + rest), ',')), NonEmpty)
  {
    assert After(prefix + " " + rest, |prefix|) == " " + rest by {
      assert prefix + " " + rest == prefix + (" " + rest);
    }
  }

  /** `entry.get("message", "")`, which must be a string for `startswith`. */
  function MessageOf(entry: Dict<Json>): (r: Result<string, Error>)
    ensures "message" !in Keys(entry) ==> r == Success("")
    ensures r.Success? <==> "message" !in Keys(entry) || GetOrNone(entry, "message").JStr?
    ensures r.Failure? ==> r.error == PyError("AttributeError")
    ensures "message" in Keys(entry) && r.Success? ==> JStr(r.value) == GetOrNone(entry, "message")
  {
    if "message" !in Keys(entry) then Success("")
    else
      match GetOrNone(entry, "message")
      case JStr(s) => Success(s)
      case _ => Failure(PyError("AttributeError"))
  }

  /** One iteration of the loop of `_build_filters_from_json_thor`. */
  function Step(config: FilterConfig, entry: Dict<Json>): (r: Result<FilterConfig, Error>)
    ensures r.Success? <==> MessageOf(entry).Success?
    ensures r.Failure? ==> r.error == PyError("AttributeError")
  {
    var message :- MessageOf(entry);
    if StartsWith(message, SELECTED_MODULES) then
      Success(config.(modulesInclude := config.modulesInclude + ParseItems(SELECTED_MODULES, message)))
    else if StartsWith(message, DESELECTED_MODULES) then
      Success(config.(modulesExclude := config.modulesExclude + ParseItems(DESELECTED_MODULES, message)))
    else if StartsWith(message, SELECTED_FEATURES) then
      Success(config.(featuresInclude := config.featuresInclude + ParseItems(SELECTED_FEATURES, message)))
    else if StartsWith(message, DESELECTED_FEATURES) then
      Success(config.(featuresExclude := config.featuresExclude + ParseItems(DESELECTED_FEATURES, message)))
    else
      Success(config)
  }

  /** A string that starts with `p` agrees with `p` at each of its positions. */
  lemma StartsWithAt(s: string, p: string, i: nat)
    requires i < |p|
    ensures StartsWith(s, p) ==> i < |s| && s[i] == p[i]
  {
    if StartsWith(s, p) {
      assert s[..|p|][i] == s[i];
    }
  }

  /** A message starts with at most one of the four prefixes. */
  lemma PrefixesExclusive(message: string)
    ensures StartsWith(message, SELECTED_MODULES) ==>
      (!StartsWith(message, DESELECTED_MODULES) && !StartsWith(message, SELECTED_FEATURES) && !StartsWith(message, DESELECTED_FEATURES))
    ensures StartsWith(message, DESELECTED_MODULES) ==>
      (!StartsWith(message, SELECTED_FEATURES) && !StartsWith(message, DESELECTED_FEATURES))
    ensures StartsWith(message, SELECTED_FEATURES) ==> !StartsWith(message, DESELECTED_FEATURES)
  {
    StartsWithAt(message, SELECTED_MODULES, 0);
    StartsWithAt(message, SELECTED_MODULES, 9);
    StartsWithAt(message, SELECTED_FEATURES, 0);
    StartsWithAt(message, SELECTED_FEATURES, 9);
    StartsWithAt(message, DESELECTED_MODULES, 0);
    StartsWithAt(message, DESELECTED_MODULES, 11);
    StartsWithAt(message, DESELECTED_FEATURES, 0);
    StartsWithAt(message, DESELECTED_FEATURES, 11);
  }

  /**
   * One entry leaves the levels alone and extends each list by what the
   * entry announces for it: the list whose prefix starts the message gets
   * its parsed items, every other list is unchanged.
   */
  lemma StepSpec(config: FilterConfig, entry: Dict<Json>)
    requires MessageOf(entry).Success?
    ensures var c := Step(config, entry).value;
      && c.levels == config.levels
      && c.modulesInclude == config.modulesInclude + Announced(SELECTED_MODULES, entry)
      && c.modulesExclude == config.modulesExclude + Announced(DESELECTED_MODULES, entry)
      && c.featuresInclude == config.featuresInclude + Announced(SELECTED_FEATURES, entry)
      && c.featuresExclude == config.featuresExclude + Announced(DESELECTED_FEATURES, entry)
  {
    var m := MessageOf(entry).value;
    PrefixesExclusive(m);
    assert config.modulesInclude + [] == config.modulesInclude;
    assert config.modulesExclude + [] == config.modulesExclude;
    assert config.featuresInclude + [] == config.featuresInclude;
    assert config.featuresExclude + [] == config.featuresExclude;
  }

  /** The items an entry adds to the list of `prefix`: none unless its message starts with it. */
  function Announced(prefix: string, entry: Dict<Json>): seq<string>
  {
    match MessageOf(entry)
    case Success(m) => if StartsWith(m, prefix) then ParseItems(prefix, m) else []
    case Failure(_) => []
  }

  /** The items the entries add to the list of `prefix`, in entry order. */
  function AnnouncedAll(prefix: string, entries: seq<Dict<Json>>): seq<string>
  {
    if entries == [] then [] else Announced(prefix, entries[0]) + AnnouncedAll(prefix, entries[1..])
  }

  /** `_build_filters_from_json_thor` over `entries`, starting from `config`. */
  function Build(config: FilterConfig, entries: seq<Dict<Json>>): Result<FilterConfig, Error>
    decreases |entries|
  {
    if entries == [] then Success(config)
    else
      var next :- Step(config, entries[0]);
      Build(next, entries[1..])
  }

  /** Every message is readable: a string, or absent. */
  predicate Readable(entries: seq<Dict<Json>>)
  {
    forall i | 0 <= i < |entries| :: MessageOf(entries[i]).Success?
  }

  /**
   * Building succeeds exactly when every message is readable; the levels
   * stay as they were, and each list grows by the items the entries
   * announce for it, in entry order.
   */
  lemma {:induction false} BuildSpec(config: FilterConfig, entries: seq<Dict<Json>>)
    decreases |entries|
    ensures Build(config, entries).Success? <==> Readable(entries)
    ensures Build(config, entries).Failure? ==> Build(config, entries).error == PyError("AttributeError")
    ensures Build(config, entries).Success? ==> Build(config, entries).value == FilterConfig(
      config.levels,
      config.modulesInclude + AnnouncedAll(SELECTED_MODULES, entries),
      config.modulesExclude + AnnouncedAll(DESELECTED_MODULES, entries),
      config.featuresInclude + AnnouncedAll(SELECTED_FEATURES, entries),
      config.featuresExclude + AnnouncedAll(DESELECTED_FEATURES, entries))
  {
    if entries != [] {
      var step := Step(config, entries[0]);
      assert Readable(entries) <==> MessageOf(entries[0]).Success? && Readable(entries[1..]) by {
        forall i | 0 < i < |entries|
          ensures entries[i] == entries[1..][i - 1]
        {
        }
      }
      if step.Success? {
        StepSpec(config, entries[0]);
        BuildSpec(step.value, entries[1..]);
        ConcatAssoc(config.modulesInclude, Announced(SELECTED_MODULES, entries[0]), AnnouncedAll(SELECTED_MODULES, entries[1..]));
        ConcatAssoc(config.modulesExclude, Announced(DESELECTED_MODULES, entries[0]), AnnouncedAll(DESELECTED_MODULES, entries[1..]));
        ConcatAssoc(config.featuresInclude, Announced(SELECTED_FEATURES, entries[0]), AnnouncedAll(SELECTED_FEATURES, entries[1..]));
        ConcatAssoc(config.featuresExclude, Announced(DESELECTED_FEATURES, entries[0]), AnnouncedAll(DESELECTED_FEATURES, entries[1..]));
      }
    } else {
      assert config.modulesInclude + [] == config.modulesInclude;
      assert config.modulesExclude + [] == config.modulesExclude;
      assert config.featuresInclude + [] == config.featuresInclude;
      assert config.featuresExclude + [] == config.featuresExclude;
    }
  }

  /** `_build_filters_from_json_thor`: the first entry, then the rest of the log. */
  method BuildFiltersFromJsonThor(first: Dict<Json>, jsonLogs: seq<Dict<Json>>) returns (r: Result<Json, Error>)
    ensures r.Success? <==> Build(InitialConfig(), [first] + jsonLogs).Success?
    ensures r.Success? ==> r.value == ConfigJson(Build(InitialConfig(), [first] + jsonLogs).value)
    ensures r.Failure? ==> r.error == Build(InitialConfig(), [first] + jsonLogs).error
  {
    var entries := [first] + jsonLogs;
    var config := InitialConfig();
    var i := 0;
    while i < |entries|
      invariant 0 <= i <= |entries|
      invariant Build(config, entries[i..]) == Build(InitialConfig(), entries)
    {
      assert entries[i..][0] == entries[i] && entries[i..][1..] == entries[i + 1..];
      var message := MessageOf(entries[i]);
      if message.Failure? {
        return Failure(message.error);
      }
      var m := message.value;
      if StartsWith(m, SELECTED_MODULES) {
        config := config.(modulesInclude := config.modulesInclude + ParseItems(SELECTED_MODULES, m));
      } else if StartsWith(m, DESELECTED_MODULES) {
        config := config.(modulesExclude := config.modulesExclude + ParseItems(DESELECTED_MODULES, m));
      } else if StartsWith(m, SELECTED_FEATURES) {
        config := config.(featuresInclude := config.featuresInclude + ParseItems(SELECTED_FEATURES, m));
      } else if StartsWith(m, DESELECTED_FEATURES) {
        config := config.(featuresExclude := config.featuresExclude + ParseItems(DESELECTED_FEATURES, m));
      }
      i := i + 1;
    }
    return Success(ConfigJson(config));
  }
}
