/**
 * The rules for named destination lists that the list creator and the menu
 * share: tokenising and parsing an id list, validating a new list name,
 * storing and deleting a list in the configuration, and reading the list
 * name out of a `delete_list_` callback.
 */
module Lists {
  import opened Wrappers
  import opened PyText
  import opened Model
  import Forwarding

  // ---------------------------------------------------------------------
  // Id lists

  /** Why an id-list input is refused. */
  datatype IdListError = InvalidId(token: string) | NoIds

  /**
   * `ids_text.replace(",", " ").replace(";", " ").split()`. The source then
   * keeps `part.strip()` of each part that strips to something non-empty;
   * every word already is such a part (TokensAreStripped), so the words are
   * the tokens.
   */
  function Tokens(text: string): seq<string> {
    Words(Spaced(text))
  }

  /** Every token is non-empty and equal to its own strip(). */
  lemma TokensAreStripped(text: string)
    ensures forall i :: 0 <= i < |Tokens(text)| ==> Tokens(text)[i] != [] && Strip(Tokens(text)[i]) == Tokens(text)[i]
  {
    var ts := Tokens(text);
    forall i | 0 <= i < |ts| ensures ts[i] != [] && Strip(ts[i]) == ts[i] {
      assert IsWord(ts[i]);
      assert "" + ts[i] + "" == ts[i];
      StripPadded("", ts[i], "");
    }
  }

  /** The text the tokeniser splits: commas and semicolons turned into spaces. */
  function Spaced(text: string): (r: string)
    ensures |r| == |text|
    ensures forall i :: 0 <= i < |text| ==> r[i] == (if text[i] == ',' || text[i] == ';' then ' ' else text[i])
  {
    ReplaceChar(ReplaceChar(text, ',', ' '), ';', ' ')
  }

  /** A comma or a semicolon separates tokens exactly as a space does. */
  lemma SeparatorIsSpace(a: string, c: char, b: string)
    requires c == ',' || c == ';'
    ensures Tokens(a + [c] + b) == Tokens(a + " " + b)
  {
    var x := a + [c] + b;
    var y := a + " " + b;
    forall i | 0 <= i < |x| ensures Spaced(x)[i] == Spaced(y)[i] {
      if i < |a| {
        assert x[i] == a[i] && y[i] == a[i];
      } else if i > |a| {
        assert x[i] == b[i - |a| - 1] && y[i] == b[i - |a| - 1];
      }
    }
    assert Spaced(x) == Spaced(y);
  }

  /** int() of every token, in order. */
  function ParseAll(tokens: seq<string>): (r: seq<Option<int>>)
    ensures |r| == |tokens| && forall i :: 0 <= i < |tokens| ==> r[i] == ParseInt(tokens[i])
  {
    seq(|tokens|, i requires 0 <= i < |tokens| => ParseInt(tokens[i]))
  }

  /**
   * `destinos.append(...)` over int() results: every value in order, or the
   * index of the first result that was a ValueError.
   */
  function Gather(vs: seq<Option<int>>): (r: Result<seq<int>, nat>)
    ensures r.Ok? <==> forall i :: 0 <= i < |vs| ==> vs[i].Some?
    ensures r.Ok? ==> |r.value| == |vs| && forall i :: 0 <= i < |vs| ==> vs[i] == Some(r.value[i])
    ensures r.Err? ==> r.error < |vs| && vs[r.error].None? && forall j :: 0 <= j < r.error ==> vs[j].Some?
  {
    if vs == [] then Ok([])
    else match vs[0]
      case None => Err(0)
      case Some(v) =>
        match Gather(vs[1..])
        case Ok(rest) => Ok([v] + rest)
        case Err(k) => Err(k + 1)
  }

  /**
   * `destinos.append(int(part))` over the tokens: the parsed ids in order, or
   * the first token int() refuses.
   */
  function ParseIds(tokens: seq<string>): (r: Result<seq<int>, string>)
    ensures r.Ok? <==> forall i :: 0 <= i < |tokens| ==> ParseInt(tokens[i]).Some?
    ensures r.Ok? ==> |r.value| == |tokens| && forall i :: 0 <= i < |tokens| ==> ParseInt(tokens[i]) == Some(r.value[i])
    ensures r.Err? ==> exists k :: (0 <= k < |tokens| && r.error == tokens[k] && ParseInt(tokens[k]).None? &&
      forall j :: 0 <= j < k ==> ParseInt(tokens[j]).Some?)
  {
    var vs := ParseAll(tokens);
    var g := Gather(vs);
    if g.Ok? then Ok(g.value)
    else
      var k := g.error;
      assert forall j :: 0 <= j < k ==> ParseInt(tokens[j]).Some? by {
        assert forall j :: 0 <= j < k ==> vs[j] == ParseInt(tokens[j]);
      }
      assert ParseInt(tokens[k]).None?;
      Err(tokens[k])
  }

  /** One value in front of the rest: it goes in front of the rest's values. */
  lemma GatherCons(v: Option<int>, rest: seq<Option<int>>)
    requires v.Some?
    ensures Gather([v] + rest) == if Gather(rest).Ok? then Ok([v.value] + Gather(rest).value) else Err(Gather(rest).error + 1)
  {
    assert ([v] + rest)[1..] == rest;
  }

  /** Both id-list handlers: a bad token, or no token at all, refuses the input. */
  function ParseIdList(text: string): (r: Result<seq<int>, IdListError>)
    ensures r == Err(NoIds) <==> Tokens(text) == []
    ensures r.Ok? ==> r.value != [] && |r.value| == |Tokens(text)|
    ensures r.Ok? ==> forall i :: 0 <= i < |r.value| ==> ParseInt(Tokens(text)[i]) == Some(r.value[i])
    ensures r.Err? && r.error.InvalidId? ==> r.error.token in Tokens(text) && ParseInt(r.error.token).None?
  {
    match ParseIds(Tokens(text))
    case Err(t) => Err(InvalidId(t))
    case Ok(ids) => if ids == [] then Err(NoIds) else Ok(ids)
  }

  /** Values that agree with every int() result are what Gather collects. */
  lemma SameValues(vs: seq<Option<int>>, ids: seq<int>)
    requires |ids| == |vs| && forall k :: 0 <= k < |vs| ==> vs[k] == Some(ids[k])
    ensures Gather(vs) == Ok(ids)
  {
    var g := Gather(vs).value;
    assert |g| == |ids|;
    assert forall k :: 0 <= k < |vs| ==> g[k] == ids[k];
    assert g == ids;
  }

  /** The first ValueError is the one Gather reports. */
  lemma FirstNone(vs: seq<Option<int>>, i: nat)
    requires i < |vs| && vs[i].None? && forall k :: 0 <= k < i ==> vs[k].Some?
    ensures Gather(vs) == Err(i)
  {
  }

  /** One more agreeing value keeps the collected values in step with the results. */
  lemma Extend(vs: seq<Option<int>>, ids: seq<int>, v: int)
    requires |ids| < |vs| && vs[|ids|] == Some(v)
    requires forall k :: 0 <= k < |ids| ==> vs[k] == Some(ids[k])
    ensures forall k :: 0 <= k < |ids| + 1 ==> vs[k] == Some((ids + [v])[k])
  {
    forall k | 0 <= k < |ids| + 1 ensures vs[k] == Some((ids + [v])[k]) {
      if k < |ids| {
        assert (ids + [v])[k] == ids[k];
      }
    }
  }

  /** The parsing loop of both id-list handlers, stopping at the first ValueError. */
  method CollectIds(tokens: seq<string>) returns (r: Result<seq<int>, string>)
    ensures r == ParseIds(tokens)
  {
    ghost var vs := ParseAll(tokens);
    var ids: seq<int> := [];
    var i := 0;
    while i < |tokens|
      invariant 0 <= i <= |tokens|
      invariant |ids| == i && forall k :: 0 <= k < i ==> vs[k] == Some(ids[k])
    {
      var v := ParseInt(tokens[i]);
      assert v == vs[i];
      if v.None? {
        FirstNone(vs, i);
        return Err(tokens[i]);
      }
      Extend(vs, ids, v.value);
      ids := ids + [v.value];
      i := i + 1;
    }
    SameValues(vs, ids);
    r := Ok(ids);
  }

  /** The same outcome as ParseIdList, computed by the loop. */
  method ReadIdList(text: string) returns (r: Result<seq<int>, IdListError>)
    ensures r == ParseIdList(text)
  {
    var parsed := CollectIds(Tokens(text));
    if parsed.Err? {
      return Err(InvalidId(parsed.error));
    }
    if parsed.value == [] {
      return Err(NoIds);
    }
    r := Ok(parsed.value);
  }

  /** `", ".join(map(str, ids))`, the form in which the menu echoes a stored list. */
  function JoinIds(ids: seq<int>): string {
    if ids == [] then ""
    else if |ids| == 1 then Show(ids[0])
    else Show(ids[0]) + ", " + JoinIds(ids[1..])
  }

  /** JoinIds with every separator already turned into two spaces. */
  function SpacedIds(ids: seq<int>): string {
    if ids == [] then ""
    else if |ids| == 1 then Show(ids[0])
    else Show(ids[0]) + "  " + SpacedIds(ids[1..])
  }

  function ShowAll(ids: seq<int>): (r: seq<string>)
    ensures |r| == |ids| && forall i :: 0 <= i < |ids| ==> r[i] == Show(ids[i])
  {
    seq(|ids|, i requires 0 <= i < |ids| => Show(ids[i]))
  }

  lemma ShowAvoidsSeparators(n: int)
    ensures Avoids(Show(n), ',') && Avoids(Show(n), ';')
  {
  }

  lemma {:induction false} JoinedSeparators(ids: seq<int>)
    ensures ReplaceChar(ReplaceChar(JoinIds(ids), ',', ' '), ';', ' ') == SpacedIds(ids)
  {
    if |ids| == 1 {
      ShowAvoidsSeparators(ids[0]);
      ReplaceCharAbsent(Show(ids[0]), ',', ' ');
      ReplaceCharAbsent(Show(ids[0]), ';', ' ');
    } else if |ids| > 1 {
      var h := Show(ids[0]);
      var t := JoinIds(ids[1..]);
      ShowAvoidsSeparators(ids[0]);
      ReplaceCharAbsent(h, ',', ' ');
      ReplaceCharAbsent(h, ';', ' ');
      ReplaceCharAppend(h + ", ", t, ',', ' ');
      ReplaceCharAppend(h, ", ", ',', ' ');
      var t1 := ReplaceChar(t, ',', ' ');
      assert ReplaceChar(", ", ',', ' ') == "  ";
      ReplaceCharAppend(h + "  ", t1, ';', ' ');
      ReplaceCharAppend(h, "  ", ';', ' ');
      assert ReplaceChar("  ", ';', ' ') == "  ";
      JoinedSeparators(ids[1..]);
    }
  }

  lemma {:induction false} SpacedWords(ids: seq<int>)
    ensures Words(SpacedIds(ids)) == ShowAll(ids)
  {
    if |ids| == 1 {
      ShowTrimmed(ids[0]);
      WordsSingle(Show(ids[0]));
    } else if |ids| > 1 {
      ShowTrimmed(ids[0]);
      assert AllSpace("  ");
      calc {
        Words(SpacedIds(ids));
        Words(Show(ids[0]) + "  " + SpacedIds(ids[1..]));
        { WordsCons(Show(ids[0]), "  ", SpacedIds(ids[1..])); }
        [Show(ids[0])] + Words(SpacedIds(ids[1..]));
        { SpacedWords(ids[1..]); }
        [Show(ids[0])] + ShowAll(ids[1..]);
        { ShowAllCons(ids); }
        ShowAll(ids);
      }
    }
  }

  lemma ShowAllCons(ids: seq<int>)
    requires ids != []
    ensures ShowAll(ids) == [Show(ids[0])] + ShowAll(ids[1..])
  {
  }

  lemma ParseShowAll(ids: seq<int>)
    ensures ParseIds(ShowAll(ids)) == Ok(ids)
  {
    ParseEachShown(ids);
    SameValues(ParseAll(ShowAll(ids)), ids);
  }

  lemma ParseEachShown(ids: seq<int>)
    ensures |ParseAll(ShowAll(ids))| == |ids| && forall i :: 0 <= i < |ids| ==> ParseAll(ShowAll(ids))[i] == Some(ids[i])
  {
    var ts := ShowAll(ids);
    forall i | 0 <= i < |ids| ensures ParseAll(ts)[i] == Some(ids[i]) {
      ParseShown(ids[i]);
    }
  }


  /** The echoed form of a list reads back as the same list, in the same order. */
  lemma JoinedIdsRoundTrip(ids: seq<int>)
    ensures ParseIdList(JoinIds(ids)) == if ids == [] then Err(NoIds) else Ok(ids)
  {
    JoinedSeparators(ids);
    SpacedWords(ids);
    ParseShowAll(ids);
  }

  // ---------------------------------------------------------------------
  // List names

  /** Why a new list name is refused. */
  datatype NameRejection = EmptyName | NameTaken(name: string)

  /** Both name handlers: strip the input, refuse an empty name, refuse a name already in use. */
  function CheckListName(cfg: Config, input: string): (r: Result<string, NameRejection>)
    ensures r == Err(EmptyName) <==> AllSpace(input)
    ensures r.Ok? <==> !AllSpace(input) && Strip(input) !in NamedLists(cfg)
    ensures r.Ok? ==> r.value == Strip(input) && r.value != [] && Trimmed(r.value)
    ensures r.Err? && r.error.NameTaken? ==> r.error.name == Strip(input) && r.error.name in NamedLists(cfg)
  {
    StripEmptyIffSpace(input);
    var name := Strip(input);
    if name == [] then Err(EmptyName)
    else if name in NamedLists(cfg) then Err(NameTaken(name))
    else Ok(name)
  }

  /** Surrounding whitespace never changes the verdict on a name. */
  lemma CheckIgnoresPadding(cfg: Config, a: string, input: string, b: string)
    requires AllSpace(a) && AllSpace(b)
    ensures CheckListName(cfg, a + input + b) == CheckListName(cfg, input)
  {
    StripIgnoresPadding(a, input, b);
  }

  /** An accepted name is accepted again, unchanged. */
  lemma CheckAcceptsAccepted(cfg: Config, input: string)
    requires CheckListName(cfg, input).Ok?
    ensures CheckListName(cfg, CheckListName(cfg, input).value) == CheckListName(cfg, input)
  {
    var name := Strip(input);
    assert "" + name + "" == name;
    StripPadded("", name, "");
  }

  // ---------------------------------------------------------------------
  // Storing and deleting lists

  /** `config["listas_destinos"][name] = ids`, the mapping created when absent. */
  function WithList(cfg: Config, name: string, ids: seq<ChatId>): (r: Config)
    ensures name in NamedLists(r) && NamedLists(r)[name] == ids
    ensures forall k :: k != name ==> (k in NamedLists(r) <==> k in NamedLists(cfg))
    ensures forall k :: k != name && k in NamedLists(cfg) ==> NamedLists(r)[k] == NamedLists(cfg)[k]
    ensures r.(namedLists := cfg.namedLists) == cfg
  {
    cfg.(namedLists := Some(NamedLists(cfg)[name := ids]))
  }

  /** `del listas[name]` when the name is present; None when it is not, and nothing is saved. */
  function DeleteList(cfg: Config, name: string): (r: Option<Config>)
    ensures r.None? <==> name !in NamedLists(cfg)
    ensures r.Some? ==> NamedLists(r.value) == NamedLists(cfg) - {name}
    ensures r.Some? ==> r.value.(namedLists := cfg.namedLists) == cfg
  {
    if name in NamedLists(cfg) then Some(cfg.(namedLists := Some(NamedLists(cfg) - {name})))
    else None
  }

  /** Deleting a list just stored removes it and leaves the other lists as they were before. */
  lemma DeleteAfterStore(cfg: Config, name: string, ids: seq<ChatId>)
    ensures DeleteList(WithList(cfg, name, ids), name).Some?
    ensures NamedLists(DeleteList(WithList(cfg, name, ids), name).value) == NamedLists(cfg) - {name}
  {
    assert NamedLists(cfg)[name := ids] - {name} == NamedLists(cfg) - {name};
  }

  /** A descriptor that names a stored list is forwarded to that list, filtered as always. */
  lemma StoredListResolves(cfg: Config, name: string, ids: seq<ChatId>, d: Descriptor)
    requires !d.destAll.GetOr(true) && d.destList == Some(name) && name != ""
    ensures Forwarding.Resolve(WithList(cfg, name, ids), d) == Forwarding.Keep(cfg, ids)
  {
    KeepSameFilter(cfg, WithList(cfg, name, ids), ids);
  }

  /** Keep depends only on the admin and the source channel. */
  lemma {:induction false} KeepSameFilter(c1: Config, c2: Config, xs: seq<ChatId>)
    requires c1.adminId == c2.adminId && c1.sourceChannelId == c2.sourceChannelId
    ensures Forwarding.Keep(c1, xs) == Forwarding.Keep(c2, xs)
  {
    if xs != [] {
      KeepSameFilter(c1, c2, xs[..|xs| - 1]);
    }
  }

  // ---------------------------------------------------------------------
  // The delete_list_ callback

  const DeletePrefix := "delete_list_"

  /** `data.replace("delete_list_", "")`: every occurrence is removed, not just the prefix. */
  function ListNameFromCallback(data: string): (r: string)
    ensures |r| <= |data|
  {
    RemoveAll(data, DeletePrefix)
  }

  /** A name that does not itself contain "delete_list_" comes back from its callback intact. */
  lemma CallbackNameRoundTrip(name: string)
    requires forall i :: 0 <= i < |name| ==> !OccursAt(name, DeletePrefix, i)
    ensures ListNameFromCallback(DeletePrefix + name) == name
  {
    RemoveAllPrefix(DeletePrefix, name);
    RemoveAllAbsent(name, DeletePrefix);
  }

  /** A name that does contain it loses that part: the callback for "adelete_list_b" names "ab". */
  lemma CallbackNameQuirk()
    ensures ListNameFromCallback(DeletePrefix + "adelete_list_b") == "ab"
  {
    RemoveAllPrefix(DeletePrefix, "adelete_list_b");
    assert "adelete_list_b"[0] == 'a' && DeletePrefix[0] == 'd';
    assert "adelete_list_b"[1..] == DeletePrefix + "b";
    RemoveAllPrefix(DeletePrefix, "b");
    assert "b"[0] == 'b' && |DeletePrefix| > 1;
    assert "b"[1..] == [];
  }
}
