/**
  Importing environment variables in bulk: bulkAddAppEnvHandler and bulkUpsertEnvVarsFast of
  cmd/api/env_handlers.go, against the one-by-one BulkUpsertEnvVars of cmd/api/envs.go.
  */
module EnvImport {
  import opened Shared
  import opened GoStrings

  /** One entry of the request. */
  datatype Entry = Entry(key: string, value: string, category: string, sensitive: bool, description: string)

  /** One stored row of a deployment; `sealed` is the encrypted value. */
  datatype EnvVar = EnvVar(sealed: string, category: string, sensitive: bool, description: string)

  type Store = map<string, EnvVar>

  /** Key classification and encryption, which may fail. */
  datatype Policy = Policy(category: string -> string, sensitiveKey: string -> bool, seal: string -> Option<string>)

  const MAX_BATCH: nat := 50

  function NormalizeKey(key: string): string {
    ToUpper(TrimSpace(key))
  }

  /** validateEnvVar's scan; warnings about the value do not affect validity. */
  method IsValidKey(key: string) returns (valid: bool)
    ensures valid <==> ValidKey(key)
    ensures valid <==>
            && key != "" && !('0' <= key[0] <= '9')
            && forall i :: 0 <= i < |key| ==>
                 'a' <= key[i] <= 'z' || 'A' <= key[i] <= 'Z' || '0' <= key[i] <= '9' || key[i] == '_'
  {
    if key == "" {
      return false;
    }
    for i := 0 to |key|
      invariant i > 0 ==> IsKeyStart(key[0])
      invariant forall j :: 0 <= j < i ==> IsKeyChar(key[j])
    {
      var r := key[i];
      var isLetter := ('a' <= r <= 'z') || ('A' <= r <= 'Z') || r == '_';
      var isDigit := '0' <= r <= '9';
      if i == 0 {
        if !isLetter {
          return false;
        }
      } else if !isLetter && !isDigit {
        return false;
      }
    }
    valid := true;
  }

  /** The row an entry stands for under its normalized key; None when the entry is rejected. */
  function Row(p: Policy, e: Entry): Option<EnvVar> {
    var key := NormalizeKey(e.key);
    if !ValidKey(key) then None
    else
      match p.seal(e.value)
      case None => None
      case Some(sealed) =>
        Some(EnvVar(sealed, if e.category == "" then p.category(key) else e.category,
                    e.sensitive || p.sensitiveKey(key), e.description))
  }

  // ----- one by one -----

  /** INSERT ... ON CONFLICT DO UPDATE for every valid entry, in request order. */
  function UpsertEach(p: Policy, store: Store, entries: seq<Entry>): Store {
    if entries == [] then store
    else
      var before := UpsertEach(p, store, entries[..|entries| - 1]);
      var e := entries[|entries| - 1];
      match Row(p, e)
      case None => before
      case Some(v) => before[NormalizeKey(e.key) := v]
  }

  /** UpsertDeploymentEnvVarWithOptions: normalizes and classifies once more before writing. */
  function UpsertWithOptions(p: Policy, store: Store, key: string, value: string, category: string, sensitive: bool,
                             description: string): Store {
    match Row(p, Entry(key, value, category, sensitive, description))
    case None => store
    case Some(v) => store[NormalizeKey(key) := v]
  }

  /** One iteration of BulkUpsertEnvVars. */
  function UpsertUnlessPresent(p: Policy, store: Store, e: Entry, overwrite: bool): Store {
    var key := NormalizeKey(e.key);
    if key == "" || (key in store && !overwrite) then store
    else
      UpsertWithOptions(p, store, key, e.value, if e.category == "" then p.category(key) else e.category,
                        e.sensitive || p.sensitiveKey(key), e.description)
  }

  function OneByOne(p: Policy, store: Store, entries: seq<Entry>, overwrite: bool): Store {
    if entries == [] then store
    else UpsertUnlessPresent(p, OneByOne(p, store, entries[..|entries| - 1], overwrite), entries[|entries| - 1], overwrite)
  }

  /** What the database does to one entry of the one-by-one import. */
  datatype Trouble = Fine | CheckFails | WriteFails

  /** The entries the database lets through. */
  function Surviving(entries: seq<Entry>, trouble: seq<Trouble>): seq<Entry>
    requires |trouble| == |entries|
  {
    if entries == [] then []
    else
      var n := |entries| - 1;
      Surviving(entries[..n], trouble[..n]) + (if trouble[n] == Fine then [entries[n]] else [])
  }

  /** What BulkUpsertEnvVars reports for one entry that meets `store`. */
  function ResultOf(p: Policy, store: Store, e: Entry, trouble: Trouble, overwrite: bool): KeyResult {
    var key := NormalizeKey(e.key);
    if key == "" then Rejected(e.key)
    else if trouble == CheckFails then Rejected(key)
    else if key in store && !overwrite then Skipped(key)
    else if trouble == WriteFails || Row(p, e) == None then Rejected(key)
    else Saved(key)
  }

  /** One report an entry, each against the store its predecessors left. */
  function ResultsOf(p: Policy, store: Store, entries: seq<Entry>, trouble: seq<Trouble>, overwrite: bool): seq<KeyResult>
    requires |trouble| == |entries|
  {
    if entries == [] then []
    else
      var n := |entries| - 1;
      ResultsOf(p, store, entries[..n], trouble[..n], overwrite) +
      [ResultOf(p, OneByOne(p, store, Surviving(entries[..n], trouble[..n]), overwrite), entries[n], trouble[n], overwrite)]
  }

  /** The table and the report after the first `n` entries. */
  ghost predicate ImportedSoFar(p: Policy, start: Store, entries: seq<Entry>, trouble: seq<Trouble>, n: nat,
                                overwrite: bool, now: Store, all: seq<KeyResult>)
    requires |trouble| == |entries| && n <= |entries|
  {
    && now == OneByOne(p, start, Surviving(entries[..n], trouble[..n]), overwrite)
    && all == ResultsOf(p, start, entries[..n], trouble[..n], overwrite)
  }

  lemma OneByOneSnoc(p: Policy, store: Store, entries: seq<Entry>, e: Entry, overwrite: bool)
    ensures OneByOne(p, store, entries + [e], overwrite) ==
            UpsertUnlessPresent(p, OneByOne(p, store, entries, overwrite), e, overwrite)
  {
    assert (entries + [e])[..|entries|] == entries;
  }

  lemma SurvivingNext(entries: seq<Entry>, trouble: seq<Trouble>, n: nat)
    requires |trouble| == |entries| && n < |entries|
    ensures Surviving(entries[..n + 1], trouble[..n + 1]) ==
            if trouble[n] == Fine then Surviving(entries[..n], trouble[..n]) + [entries[n]] else Surviving(entries[..n], trouble[..n])
  {
    assert entries[..n + 1][..n] == entries[..n] && trouble[..n + 1][..n] == trouble[..n];
  }

  /** What the next entry does to the table and to the report. */
  lemma NextEntry(p: Policy, start: Store, entries: seq<Entry>, trouble: seq<Trouble>, n: nat, overwrite: bool,
                  now: Store, all: seq<KeyResult>)
    requires |trouble| == |entries| && n < |entries| && ImportedSoFar(p, start, entries, trouble, n, overwrite, now, all)
    ensures ImportedSoFar(p, start, entries, trouble, n + 1, overwrite,
                          if trouble[n] == Fine then UpsertUnlessPresent(p, now, entries[n], overwrite) else now,
                          all + [ResultOf(p, now, entries[n], trouble[n], overwrite)])
  {
    SurvivingNext(entries, trouble, n);
    OneByOneSnoc(p, start, Surviving(entries[..n], trouble[..n]), entries[n], overwrite);
    assert entries[..n + 1][..n] == entries[..n] && trouble[..n + 1][..n] == trouble[..n];
  }

  // ----- the batch -----

  /** The keys of the accepted entries, each once, in order of first appearance. */
  function Order(p: Policy, entries: seq<Entry>): seq<string> {
    if entries == [] then []
    else
      var before := Order(p, entries[..|entries| - 1]);
      var e := entries[|entries| - 1];
      if Row(p, e) == None || NormalizeKey(e.key) in before then before else before + [NormalizeKey(e.key)]
  }

  datatype KeyResult = Rejected(key: string) | Saved(key: string) | Skipped(key: string)

  function Rejections(p: Policy, entries: seq<Entry>): seq<KeyResult> {
    if entries == [] then []
    else
      var e := entries[|entries| - 1];
      Rejections(p, entries[..|entries| - 1]) +
      (if Row(p, e) == None then [Rejected(if NormalizeKey(e.key) == "" then e.key else NormalizeKey(e.key))] else [])
  }

  /** What is reported for the keys sent to the database. */
  function Outcomes(order: seq<string>, saved: set<string>): seq<KeyResult> {
    seq(|order|, i requires 0 <= i < |order| => if order[i] in saved then Saved(order[i]) else Skipped(order[i]))
  }

  /** The table after INSERT ... SELECT FROM unnest(...), row after row. */
  function Inserted(store: Store, keys: seq<string>, vars: seq<EnvVar>, overwrite: bool): Store
    requires |keys| == |vars|
  {
    if keys == [] then store
    else
      var n := |keys| - 1;
      var before := Inserted(store, keys[..n], vars[..n], overwrite);
      if keys[n] in before && !overwrite then before else before[keys[n] := vars[n]]
  }

  function Rows(order: seq<string>, prepared: Store): (rows: seq<EnvVar>)
    requires forall k :: k in order ==> k in prepared
    ensures |rows| == |order|
  {
    if order == [] then [] else Rows(order[..|order| - 1], prepared) + [prepared[order[|order| - 1]]]
  }

  function AllRejected(order: seq<string>): seq<KeyResult> {
    seq(|order|, i requires 0 <= i < |order| => Rejected(order[i]))
  }

  /** What an import is to leave behind: the last valid value of every key, or only of the new ones. */
  function Imported(p: Policy, store: Store, entries: seq<Entry>, overwrite: bool): Store {
    if overwrite then UpsertEach(p, store, entries) else UpsertEach(p, map[], entries) + store
  }

  lemma NothingToReport(all: seq<KeyResult>)
    ensures all + AllRejected([]) == all
    ensures forall saved :: all + Outcomes([], saved) == all
  {
  }

  /** Validates and encrypts one entry. */
  method Prepare(p: Policy, e: Entry) returns (row: Option<EnvVar>)
    ensures row == Row(p, e)
    ensures var key := ToUpper(TrimSpace(e.key));
            && (row.Some? <==> ValidKey(key) && p.seal(e.value).Some?)
            && (row.Some? ==>
                  && row.value.sealed == p.seal(e.value).value && row.value.description == e.description
                  && row.value.category == (if e.category != "" then e.category else p.category(key))
                  && (row.value.sensitive <==> e.sensitive || p.sensitiveKey(key)))
  {
    var key := NormalizeKey(e.key);
    if key == "" {
      return None;
    }
    var valid := IsValidKey(key);
    if !valid {
      return None;
    }
    var category := if e.category == "" then p.category(key) else e.category;
    var sensitive := e.sensitive || p.sensitiveKey(key);
    match p.seal(e.value)
    case None => row := None;
    case Some(sealed) => row := Some(EnvVar(sealed, category, sensitive, e.description));
  }

  /** Every entry up front; no database is involved. */
  method PrepareAll(p: Policy, entries: seq<Entry>)
    returns (rejected: seq<KeyResult>, prepared: Store, order: seq<string>)
    ensures rejected == Rejections(p, entries)
    ensures prepared == UpsertEach(p, map[], entries)
    ensures order == Order(p, entries)
    ensures forall k :: k in order <==> k in prepared
  {
    rejected, prepared, order := [], map[], [];
    for i := 0 to |entries|
      invariant rejected == Rejections(p, entries[..i])
      invariant prepared == UpsertEach(p, map[], entries[..i])
      invariant order == Order(p, entries[..i])
      invariant forall k :: k in order <==> k in prepared
    {
      assert entries[..i + 1][..i] == entries[..i];
      var e := entries[i];
      var key := NormalizeKey(e.key);
      var row := Prepare(p, e);
      match row
      case None =>
        rejected := rejected + [Rejected(if key == "" then e.key else key)];
      case Some(v) =>
        if key !in prepared {
          order := order + [key];
        }
        prepared := prepared[key := v];
    }
    assert entries[..|entries|] == entries;
  }

  class EnvTable {
    var vars: Store

    constructor (vars: Store)
      ensures this.vars == vars
    {
      this.vars := vars;
    }

    /**
      bulkUpsertEnvVarsFast.  DO UPDATE fails the whole statement if it meets a row twice; DO NOTHING
      does not mind.  Returns the keys that were inserted or updated, None when the statement fails.
      */
    method BulkUpsertEnvVarsFast(keys: seq<string>, rows: seq<EnvVar>, overwrite: bool, databaseFails: bool)
      returns (saved: Option<set<string>>)
      requires |keys| == |rows|
      modifies this
      ensures saved == None <==> databaseFails || (overwrite && !Distinct(keys))
      ensures saved == None ==> vars == old(vars)
      ensures saved.Some? ==> vars == Inserted(old(vars), keys, rows, overwrite)
      ensures saved.Some? ==> saved.value == set k | k in keys && (overwrite || k !in old(vars))
    {
      if databaseFails {
        return None;
      }
      var table, touched := vars, {};
      for i := 0 to |keys|
        invariant table == Inserted(vars, keys[..i], rows[..i], overwrite)
        invariant table.Keys == vars.Keys + set k | k in keys[..i]
        invariant touched == set k | k in keys[..i] && (overwrite || k !in vars)
        invariant overwrite ==> Distinct(keys[..i])
      {
        assert keys[..i + 1][..i] == keys[..i] && rows[..i + 1][..i] == rows[..i];
        assert keys[..i + 1] == keys[..i] + [keys[i]];
        if overwrite && keys[i] in touched {
          assert keys[i] in keys[..i];
          return None;
        }
        if overwrite || keys[i] !in table {
          table := table[keys[i] := rows[i]];
          touched := touched + {keys[i]};
        }
      }
      assert keys[..|keys|] == keys && rows[..|rows|] == rows;
      vars := table;
      saved := Some(touched);
    }

    /** bulkAddAppEnvHandler.  None is a bad request: no entry, or more than fifty. */
    method BulkAdd(p: Policy, entries: seq<Entry>, overwrite: bool, databaseFails: bool)
      returns (results: Option<seq<KeyResult>>)
      modifies this
      ensures results == None <==> |entries| == 0 || |entries| > 50
      ensures results == None || databaseFails ==> vars == old(vars)
      ensures results.Some? && !databaseFails ==>
                && vars == Imported(p, old(vars), entries, overwrite)
                && results.value == Rejections(p, entries) +
                     Outcomes(Order(p, entries), set k | k in Order(p, entries) && (overwrite || k !in old(vars)))
      ensures results.Some? && databaseFails ==>
                results.value == Rejections(p, entries) + AllRejected(Order(p, entries))
    {
      if |entries| == 0 || |entries| > MAX_BATCH {
        return None;
      }
      var all, prepared, order := PrepareAll(p, entries);
      OrderIsDistinct(p, entries);
      InsertedIsImported(p, vars, entries, overwrite);
      if |order| > 0 {
        var saved := BulkUpsertEnvVarsFast(order, Rows(order, prepared), overwrite, databaseFails);
        match saved
        case None =>
          all := all + AllRejected(order);
        case Some(keys) =>
          all := all + Outcomes(order, keys);
      } else {
        NothingToReport(all);
      }
      results := Some(all);
    }

    /** One entry of BulkUpsertEnvVars. */
    method UpsertOne(p: Policy, e: Entry, trouble: Trouble, overwrite: bool) returns (result: KeyResult)
      modifies this
      ensures vars == if trouble == Fine then UpsertUnlessPresent(p, old(vars), e, overwrite) else old(vars)
      ensures result == ResultOf(p, old(vars), e, trouble, overwrite)
    {
      var key := NormalizeKey(e.key);
      if key == "" {
        return Rejected(e.key);
      }
      if trouble == CheckFails {
        return Rejected(key);
      }
      if key in vars && !overwrite {
        return Skipped(key);
      }
      var category := e.category;
      if category == "" {
        category := p.category(key);
      }
      NormalizeTwiceValid(e.key);
      if trouble == WriteFails || Row(p, Entry(key, e.value, category, e.sensitive || p.sensitiveKey(key), e.description)) == None {
        return Rejected(key);
      }
      vars := UpsertWithOptions(p, vars, key, e.value, category, e.sensitive || p.sensitiveKey(key), e.description);
      result := Saved(key);
    }

    /** BulkUpsertEnvVars, for a caller that owns the deployment.  None: no entry, or too many. */
    method BulkUpsertEnvVars(p: Policy, entries: seq<Entry>, trouble: seq<Trouble>, overwrite: bool)
      returns (results: Option<seq<KeyResult>>)
      requires |trouble| == |entries|
      modifies this
      ensures results == if 0 < |entries| <= 50 then Some(ResultsOf(p, old(vars), entries, trouble, overwrite)) else None
      ensures vars == if results.Some? then OneByOne(p, old(vars), Surviving(entries, trouble), overwrite) else old(vars)
    {
      if |entries| == 0 || |entries| > MAX_BATCH {
        return None;
      }
      var all: seq<KeyResult> := [];
      for i := 0 to |entries|
        invariant ImportedSoFar(p, old(vars), entries, trouble, i, overwrite, vars, all)
      {
        NextEntry(p, old(vars), entries, trouble, i, overwrite, vars, all);
        var result := UpsertOne(p, entries[i], trouble[i], overwrite);
        all := all + [result];
      }
      assert entries[..|entries|] == entries && trouble[..|trouble|] == trouble;
      results := Some(all);
    }
  }

  /** A database without trouble lets every entry through. */
  lemma {:induction false} AllSurvive(entries: seq<Entry>, trouble: seq<Trouble>)
    requires |trouble| == |entries| && forall i :: 0 <= i < |trouble| ==> trouble[i] == Fine
    ensures Surviving(entries, trouble) == entries
  {
    if entries != [] {
      var n := |entries| - 1;
      AllSurvive(entries[..n], trouble[..n]);
      assert entries[..n] + [entries[n]] == entries;
    }
  }

  // ----- the batch refines the one-by-one import -----

  /** The keys sent to the database are distinct and are exactly those of the accepted entries. */
  lemma {:induction false} OrderIsDistinct(p: Policy, entries: seq<Entry>)
    ensures Distinct(Order(p, entries))
    ensures forall k :: k in Order(p, entries) <==> k in UpsertEach(p, map[], entries)
  {
    if entries != [] {
      OrderIsDistinct(p, entries[..|entries| - 1]);
    }
  }

  lemma {:induction false} InsertedAt(store: Store, order: seq<string>, prepared: Store, overwrite: bool, k: string)
    requires Distinct(order) && forall n :: n in order ==> n in prepared
    ensures var r := Inserted(store, order, Rows(order, prepared), overwrite);
            && (k in r <==> k in store || k in order)
            && (k in order && (overwrite || k !in store) ==> r[k] == prepared[k])
            && (k in store && !(k in order && overwrite) ==> r[k] == store[k])
  {
    if order != [] {
      var n := |order| - 1;
      var before := order[..n];
      assert order == before + [order[n]];
      assert Rows(order, prepared)[..n] == Rows(before, prepared);
      InsertedAt(store, before, prepared, overwrite, k);
      InsertedAt(store, before, prepared, overwrite, order[n]);
    }
  }

  /** Upserting into a store is upserting into nothing and letting the result win. */
  lemma {:induction false} UpsertEachIsUnion(p: Policy, store: Store, entries: seq<Entry>)
    ensures UpsertEach(p, store, entries) == store + UpsertEach(p, map[], entries)
  {
    if entries == [] {
      assert store + map[] == store;
    } else {
      UpsertEachIsUnion(p, store, entries[..|entries| - 1]);
    }
  }

  /** One INSERT over distinct keys adds its rows, which win only when overwriting. */
  lemma InsertedIsUnion(store: Store, order: seq<string>, prepared: Store, overwrite: bool)
    requires Distinct(order) && forall k :: k in order <==> k in prepared
    ensures Inserted(store, order, Rows(order, prepared), overwrite) == if overwrite then store + prepared else prepared + store
  {
    var r := Inserted(store, order, Rows(order, prepared), overwrite);
    var goal := if overwrite then store + prepared else prepared + store;
    forall k
      ensures k in r <==> k in goal
      ensures k in r && k in goal ==> r[k] == goal[k]
    {
      InsertedAt(store, order, prepared, overwrite, k);
    }
  }

  /** The single INSERT over the deduplicated keys is the fold of single upserts. */
  lemma InsertedIsImported(p: Policy, store: Store, entries: seq<Entry>, overwrite: bool)
    requires Distinct(Order(p, entries))
    requires forall k :: k in Order(p, entries) <==> k in UpsertEach(p, map[], entries)
    ensures Inserted(store, Order(p, entries), Rows(Order(p, entries), UpsertEach(p, map[], entries)), overwrite) ==
            Imported(p, store, entries, overwrite)
  {
    UpsertEachIsUnion(p, store, entries);
    InsertedIsUnion(store, Order(p, entries), UpsertEach(p, map[], entries), overwrite);
  }

  // ----- the batch against BulkUpsertEnvVars -----

  lemma KeyRuneIsSettled(c: char)
    requires IsKeyChar(c)
    ensures !IsSpace(c)
  {
  }

  lemma UpperIsSettled(c: char)
    ensures ToUpperRune(ToUpperRune(c)) == ToUpperRune(c)
  {
  }

  /** Normalizing an accepted key again changes nothing. */
  lemma NormalizeTwice(key: string)
    requires ValidKey(NormalizeKey(key))
    ensures NormalizeKey(NormalizeKey(key)) == NormalizeKey(key)
  {
    var n := NormalizeKey(key);
    KeyRuneIsSettled(n[0]);
    KeyRuneIsSettled(n[|n| - 1]);
    TrimOfTrimmed(n);
    forall i | 0 <= i < |n|
      ensures ToUpper(n)[i] == n[i]
    {
      UpperIsSettled(TrimSpace(key)[i]);
    }
  }

  lemma NormalizeTwiceValid(key: string)
    ensures ValidKey(NormalizeKey(NormalizeKey(key))) <==> ValidKey(NormalizeKey(key))
    ensures ValidKey(NormalizeKey(key)) ==> NormalizeKey(NormalizeKey(key)) == NormalizeKey(key)
  {
    if ValidKey(NormalizeKey(key)) {
      NormalizeTwice(key);
    } else {
      UpperTwice(TrimSpace(key));
      TrimSpaceEnds(key);
      UpperKeepsSpaces(TrimSpace(key));
      TrimOfTrimmed(NormalizeKey(key));
    }
  }

  lemma UpperTwice(s: string)
    ensures ToUpper(ToUpper(s)) == ToUpper(s)
  {
    forall i | 0 <= i < |s|
      ensures ToUpper(ToUpper(s))[i] == ToUpper(s)[i]
    {
      UpperIsSettled(s[i]);
    }
  }

  lemma UpperKeepsSpaces(s: string)
    ensures forall i :: 0 <= i < |s| ==> (IsSpace(ToUpper(s)[i]) <==> IsSpace(s[i]))
  {
  }

  /** Checking presence and classifying twice makes no difference: one entry is one upsert. */
  lemma UpsertUnlessPresentIs(p: Policy, store: Store, e: Entry, overwrite: bool)
    ensures UpsertUnlessPresent(p, store, e, overwrite) ==
            if Row(p, e) == None || (NormalizeKey(e.key) in store && !overwrite) then store
            else store[NormalizeKey(e.key) := Row(p, e).value]
  {
    NormalizeTwiceValid(e.key);
  }

  /** The first accepted value of every key. */
  function FirstValues(p: Policy, entries: seq<Entry>): Store {
    OneByOne(p, map[], entries, false)
  }

  lemma {:induction false} OneByOneOverwrites(p: Policy, store: Store, entries: seq<Entry>)
    ensures OneByOne(p, store, entries, true) == UpsertEach(p, store, entries)
  {
    if entries != [] {
      var before, e := entries[..|entries| - 1], entries[|entries| - 1];
      OneByOneOverwrites(p, store, before);
      UpsertUnlessPresentIs(p, UpsertEach(p, store, before), e, true);
    }
  }

  lemma {:induction false} OneByOneKeepsFirst(p: Policy, store: Store, entries: seq<Entry>)
    ensures OneByOne(p, store, entries, false) == FirstValues(p, entries) + store
  {
    if entries == [] {
      assert map[] + store == store;
    } else {
      var before, e := entries[..|entries| - 1], entries[|entries| - 1];
      OneByOneKeepsFirst(p, store, before);
      var first := FirstValues(p, before);
      UpsertUnlessPresentIs(p, first + store, e, false);
      UpsertUnlessPresentIs(p, first, e, false);
      var key := NormalizeKey(e.key);
      if Row(p, e) != None && key !in first {
        if key in store {
          assert first[key := Row(p, e).value] + store == first + store;
        } else {
          assert first[key := Row(p, e).value] + store == (first + store)[key := Row(p, e).value];
        }
      }
    }
  }

  /** What an entry comes to: dropped, or a row under its normalized key. */
  datatype Item = Dropped | Kept(key: string, row: EnvVar)

  function ItemOf(p: Policy, e: Entry): Item {
    match Row(p, e)
    case None => Dropped
    case Some(v) => Kept(NormalizeKey(e.key), v)
  }

  function Items(p: Policy, entries: seq<Entry>): (items: seq<Item>)
    ensures |items| == |entries| && forall i :: 0 <= i < |items| ==> items[i] == ItemOf(p, entries[i])
  {
    seq(|entries|, i requires 0 <= i < |entries| => ItemOf(p, entries[i]))
  }

  function FirstRows(items: seq<Item>): Store {
    if items == [] then map[]
    else
      var before, last := FirstRows(items[..|items| - 1]), items[|items| - 1];
      if last.Kept? && last.key !in before then before[last.key := last.row] else before
  }

  function LastRows(items: seq<Item>): Store {
    if items == [] then map[]
    else
      var before, last := LastRows(items[..|items| - 1]), items[|items| - 1];
      if last.Kept? then before[last.key := last.row] else before
  }

  lemma {:induction false} ValuesOfItems(p: Policy, entries: seq<Entry>)
    ensures FirstValues(p, entries) == FirstRows(Items(p, entries))
    ensures UpsertEach(p, map[], entries) == LastRows(Items(p, entries))
  {
    if entries != [] {
      var before, e := entries[..|entries| - 1], entries[|entries| - 1];
      ValuesOfItems(p, before);
      UpsertUnlessPresentIs(p, FirstValues(p, before), e, false);
      assert Items(p, entries)[..|entries| - 1] == Items(p, before);
    }
  }

  ghost predicate IsFirst(items: seq<Item>, i: int) {
    && 0 <= i < |items| && items[i].Kept?
    && forall j :: 0 <= j < i && items[j].Kept? ==> items[j].key != items[i].key
  }

  ghost predicate IsLast(items: seq<Item>, i: int) {
    && 0 <= i < |items| && items[i].Kept?
    && forall j :: i < j < |items| && items[j].Kept? ==> items[j].key != items[i].key
  }

  /** FirstRows holds exactly the first row of every key. */
  lemma {:induction false} FirstRowsAre(items: seq<Item>, i: nat)
    requires IsFirst(items, i)
    ensures items[i].key in FirstRows(items) && FirstRows(items)[items[i].key] == items[i].row
  {
    var before, n := items[..|items| - 1], |items| - 1;
    if i == n {
      FirstRowsHaveItems(before, items[i].key);
    } else {
      assert IsFirst(before, i);
      FirstRowsAre(before, i);
    }
  }

  lemma {:induction false} FirstRowsHaveItems(items: seq<Item>, k: string)
    ensures k in FirstRows(items) <==> exists j :: 0 <= j < |items| && items[j].Kept? && items[j].key == k
  {
    if items != [] {
      var before, n := items[..|items| - 1], |items| - 1;
      FirstRowsHaveItems(before, k);
      assert forall j :: 0 <= j < n ==> before[j] == items[j];
    }
  }

  /** LastRows holds exactly the last row of every key. */
  lemma {:induction false} LastRowsAre(items: seq<Item>, i: nat)
    requires IsLast(items, i)
    ensures items[i].key in LastRows(items) && LastRows(items)[items[i].key] == items[i].row
  {
    if i < |items| - 1 {
      assert IsLast(items[..|items| - 1], i);
      LastRowsAre(items[..|items| - 1], i);
    }
  }

  lemma {:induction false} SomeFirst(items: seq<Item>, j: nat) returns (i: nat)
    requires j < |items| && items[j].Kept?
    ensures IsFirst(items, i) && items[i].key == items[j].key
  {
    if k :| 0 <= k < j && items[k].Kept? && items[k].key == items[j].key {
      i := SomeFirst(items, k);
    } else {
      i := j;
    }
  }

  lemma {:induction false} SomeLast(items: seq<Item>, j: nat) returns (i: nat)
    requires j < |items| && items[j].Kept?
    ensures IsLast(items, i) && items[i].key == items[j].key
    decreases |items| - j
  {
    if k :| j < k < |items| && items[k].Kept? && items[k].key == items[j].key {
      i := SomeLast(items, k);
    } else {
      i := j;
    }
  }

  /** Every key that is new to the store has the same row first and last. */
  ghost predicate NewKeysSettled(items: seq<Item>, store: Store) {
    forall i, j :: IsFirst(items, i) && IsLast(items, j) && items[i].key == items[j].key && items[i].key !in store ==>
      items[i].row == items[j].row
  }

  lemma SettledIff(items: seq<Item>, store: Store)
    ensures NewKeysSettled(items, store) <==> FirstRows(items) + store == LastRows(items) + store
  {
    var first, last := FirstRows(items), LastRows(items);
    SameKeys(items);
    if NewKeysSettled(items, store) {
      forall k | k in first && k !in store
        ensures first[k] == last[k]
      {
        FirstRowsHaveItems(items, k);
        var n :| 0 <= n < |items| && items[n].Kept? && items[n].key == k;
        var i := SomeFirst(items, n);
        var j := SomeLast(items, n);
        FirstRowsAre(items, i);
        LastRowsAre(items, j);
      }
    } else {
      var i, j :| IsFirst(items, i) && IsLast(items, j) && items[i].key == items[j].key && items[i].key !in store
                  && items[i].row != items[j].row;
      FirstRowsAre(items, i);
      LastRowsAre(items, j);
      assert (first + store)[items[i].key] != (last + store)[items[i].key];
    }
  }

  lemma {:induction false} SameKeys(items: seq<Item>)
    ensures FirstRows(items).Keys == LastRows(items).Keys
  {
    if items != [] {
      SameKeys(items[..|items| - 1]);
    }
  }

  /**
    The batch and the one-by-one import leave the same store exactly when they overwrite, or when
    no new key comes with a last accepted row that differs from its first: without overwriting the
    batch keeps the last, the one-by-one import the first.
    */
  lemma BatchAgreesIff(p: Policy, store: Store, entries: seq<Entry>, overwrite: bool)
    ensures Imported(p, store, entries, overwrite) == OneByOne(p, store, entries, overwrite) <==>
            overwrite || NewKeysSettled(Items(p, entries), store)
  {
    if overwrite {
      OneByOneOverwrites(p, store, entries);
    } else {
      OneByOneKeepsFirst(p, store, entries);
      ValuesOfItems(p, entries);
      SettledIff(Items(p, entries), store);
    }
  }

  /** In particular they agree when the normalized keys are distinct. */
  lemma BatchAgreesOnDistinctKeys(p: Policy, store: Store, entries: seq<Entry>, overwrite: bool)
    requires forall i, j :: 0 <= i < j < |entries| ==> NormalizeKey(entries[i].key) != NormalizeKey(entries[j].key)
    ensures Imported(p, store, entries, overwrite) == OneByOne(p, store, entries, overwrite)
  {
    var items := Items(p, entries);
    forall i, j | IsFirst(items, i) && IsLast(items, j) && items[i].key == items[j].key
      ensures i == j
    {
      assert items[i].key == NormalizeKey(entries[i].key) && items[j].key == NormalizeKey(entries[j].key);
    }
    BatchAgreesIff(p, store, entries, overwrite);
  }

  /** Without overwriting, stored keys are untouched and a new key gets its last accepted row. */
  lemma ImportWithoutOverwrite(p: Policy, store: Store, entries: seq<Entry>, k: string)
    ensures var r := Imported(p, store, entries, false); var items := Items(p, entries);
            && (k in store ==> k in r && r[k] == store[k])
            && (k in r && k !in store ==> exists i :: IsLast(items, i) && items[i].key == k && items[i].row == r[k])
  {
    var items := Items(p, entries);
    ValuesOfItems(p, entries);
    SameKeys(items);
    if k in LastRows(items) {
      FirstRowsHaveItems(items, k);
      var n :| 0 <= n < |items| && items[n].Kept? && items[n].key == k;
      var i := SomeLast(items, n);
      LastRowsAre(items, i);
    }
  }

  /** Saved and skipped keys partition the keys sent to the database. */
  lemma {:induction false} OutcomesPartition(p: Policy, store: Store, entries: seq<Entry>, overwrite: bool)
    ensures var order := Order(p, entries);
            var outcomes := Outcomes(order, set k | k in order && (overwrite || k !in store));
            && Distinct(order) && |outcomes| == |order|
            && forall i :: 0 <= i < |order| ==>
                 outcomes[i] == if order[i] in store && !overwrite then Skipped(order[i]) else Saved(order[i])
  {
    OrderIsDistinct(p, entries);
  }

  /** Two values for one new key: the batch keeps the last, the one-by-one import the first. */
  lemma FirstOrLast(p: Policy, one: Entry, two: Entry)
    requires Row(p, one).Some? && Row(p, two).Some? && Row(p, one) != Row(p, two)
    requires NormalizeKey(one.key) == NormalizeKey(two.key)
    ensures var key := NormalizeKey(one.key); var entries := [one, two];
            && Imported(p, map[], entries, false) == map[key := Row(p, two).value]
            && OneByOne(p, map[], entries, false) == map[key := Row(p, one).value]
  {
    var entries := [one, two];
    assert entries[..1] == [one] && [one][..0] == [];
    UpsertUnlessPresentIs(p, map[], one, false);
    UpsertUnlessPresentIs(p, map[NormalizeKey(one.key) := Row(p, one).value], two, false);
    assert OneByOne(p, map[], [one], false) == map[NormalizeKey(one.key) := Row(p, one).value];
    assert UpsertEach(p, map[], [one]) == map[NormalizeKey(one.key) := Row(p, one).value];
  }

  /** For example the values 1 and 2 for a key K. */
  lemma FirstOrLastExample()
    ensures var p := Policy(_ => "general", _ => false, v => Some(v));
            var entries := [Entry("K", "1", "", false, ""), Entry("K", "2", "", false, "")];
            Imported(p, map[], entries, false) != OneByOne(p, map[], entries, false)
  {
    var p := Policy(_ => "general", _ => false, v => Some(v));
    var one, two := Entry("K", "1", "", false, ""), Entry("K", "2", "", false, "");
    TrimOfTrimmed("K");
    assert NormalizeKey("K") == "K" && ValidKey("K");
    FirstOrLast(p, one, two);
    assert map["K" := Row(p, one).value]["K"] != map["K" := Row(p, two).value]["K"];
  }

  // ----- entries and reports, in their own terms -----

  /** A key is stored upper-cased and without the whitespace around it. */
  lemma KeyIsNormalized(w: string, key: string, w': string, i: nat)
    requires forall c :: c in w + w' ==> c == ' ' || c == '\t' || c == '\n' || c == '\r' || c == '\U{A0}'
    requires i < |key| && forall j :: 0 <= j < |key| ==> IsKeyChar(key[j])
    ensures var n := NormalizeKey(w + key + w');
            && |n| == |key|
            && n[i] as int == if 'a' <= key[i] <= 'z' then key[i] as int - 32 else key[i] as int
  {
    KeyRuneIsSettled(key[0]);
    KeyRuneIsSettled(key[|key| - 1]);
    TrimOfPadded(w, key, w');
    CasesAre(key, i);
  }

  /** What the one-by-one import reports for an entry is what it did to the table. */
  lemma ReportIsTrue(p: Policy, store: Store, e: Entry, trouble: Trouble, overwrite: bool)
    ensures var key := NormalizeKey(e.key); var result := ResultOf(p, store, e, trouble, overwrite);
            var after := if trouble == Fine then UpsertUnlessPresent(p, store, e, overwrite) else store;
            && (result == Saved(key) <==> trouble == Fine && Row(p, e).Some? && (overwrite || key !in store))
            && (result == Skipped(key) <==> trouble != CheckFails && key != "" && key in store && !overwrite)
            && after == if result == Saved(key) then store[key := Row(p, e).value] else store
  {
    UpsertUnlessPresentIs(p, store, e, overwrite);
  }

  /** `r` is the rejection of an entry that has no row, under the name it was given or the one it would have. */
  predicate IsRejectionOf(p: Policy, e: Entry, r: KeyResult) {
    Row(p, e) == None && r == Rejected(if NormalizeKey(e.key) == "" then e.key else NormalizeKey(e.key))
  }

  lemma RejectionsSnoc(p: Policy, before: seq<Entry>, e: Entry, r: KeyResult)
    ensures r in Rejections(p, before + [e]) <==> r in Rejections(p, before) || IsRejectionOf(p, e, r)
  {
    assert (before + [e])[..|before|] == before;
  }

  /** Exactly the entries without a row are reported as rejected. */
  lemma {:induction false} RejectionsAre(p: Policy, entries: seq<Entry>, r: KeyResult)
    ensures r in Rejections(p, entries) <==> exists e :: e in entries && IsRejectionOf(p, e, r)
  {
    if entries != [] {
      var n := |entries| - 1;
      assert entries == entries[..n] + [entries[n]];
      RejectionsAre(p, entries[..n], r);
      RejectionsSnoc(p, entries[..n], entries[n], r);
      assert forall e :: e in entries <==> e in entries[..n] || e == entries[n];
    }
  }

  /** With overwriting, every accepted key has its last accepted row, and the others are as they were. */
  lemma ImportWithOverwrite(p: Policy, store: Store, entries: seq<Entry>, k: string)
    ensures var r := Imported(p, store, entries, true); var items := Items(p, entries);
            if exists n :: 0 <= n < |items| && items[n].Kept? && items[n].key == k then
              k in r && exists i :: IsLast(items, i) && items[i].key == k && items[i].row == r[k]
            else (k in r <==> k in store) && (k in r ==> r[k] == store[k])
  {
    var items := Items(p, entries);
    UpsertEachIsUnion(p, store, entries);
    ValuesOfItems(p, entries);
    SameKeys(items);
    FirstRowsHaveItems(items, k);
    if n :| 0 <= n < |items| && items[n].Kept? && items[n].key == k {
      var i := SomeLast(items, n);
      LastRowsAre(items, i);
    }
  }
}
