/**
 * The station table the route server builds at start-up from the parsed rows
 * of its semicolon-separated station file: every row by identifier, and the
 * rows flagged suggestable, in file order, for the name search. Reading and
 * parsing the file are left out; the rows arrive already parsed.
 */
module Catalog {

  /** One parsed row, with the columns the server reads. A missing
      `info:fr` cell is the empty string, which is just as falsy. */
  datatype Station = Station(
    id: string,
    name: string,
    slug: string,
    latitude: string,
    longitude: string,
    country: string,
    infoFr: string,
    isSuggestable: string)

  /** The flag value that puts a station in the suggestion list. */
  const SuggestableFlag := "t"

  /** The display name, qualified by `info:fr` when that cell is non-empty. */
  function Augment(row: Station): (st: Station)
    // only the name changes, and only by growing at the end
    ensures st == row.(name := st.name)
    ensures |st.name| >= |row.name| && st.name[..|row.name|] == row.name
    ensures st.name != row.name <==> row.infoFr != []
    ensures row.infoFr != [] ==> st.name[|row.name|..] == " (" + row.infoFr + ")"
  {
    if row.infoFr != [] then row.(name := row.name + " (" + row.infoFr + ")") else row
  }

  /** The suggestable stations among `rows`, augmented, in their file order. */
  function Suggestables(rows: seq<Station>): (r: seq<Station>)
    ensures |r| <= |rows|
    ensures forall k :: 0 <= k < |r| ==> r[k].isSuggestable == SuggestableFlag
  {
    if rows == [] then []
    else
      var last := rows[|rows| - 1];
      Suggestables(rows[..|rows| - 1])
        + (if last.isSuggestable == SuggestableFlag then [Augment(last)] else [])
  }

  /** The filter keeps order: the suggestions of a file split in two are
      those of the first part followed by those of the second. */
  lemma {:induction false} SuggestablesAppend(a: seq<Station>, b: seq<Station>)
    ensures Suggestables(a + b) == Suggestables(a) + Suggestables(b)
    decreases |b|
  {
    if b != [] {
      var b' := b[..|b| - 1];
      assert (a + b)[..|a + b| - 1] == a + b';
      SuggestablesAppend(a, b');
    } else {
      assert a + b == a;
    }
  }

  /** Every suggestable row is offered, augmented, and nothing else is. */
  lemma {:induction false} SuggestablesMembers(rows: seq<Station>, st: Station)
    ensures st in Suggestables(rows) <==>
      exists j :: 0 <= j < |rows| && rows[j].isSuggestable == SuggestableFlag && st == Augment(rows[j])
  {
    if rows != [] {
      var init := rows[..|rows| - 1];
      SuggestablesMembers(init, st);
      if st in Suggestables(init) {
        var j :| 0 <= j < |init| && init[j].isSuggestable == SuggestableFlag && st == Augment(init[j]);
        assert rows[j] == init[j];
      }
      if exists j :: 0 <= j < |rows| && rows[j].isSuggestable == SuggestableFlag && st == Augment(rows[j]) {
        var j :| 0 <= j < |rows| && rows[j].isSuggestable == SuggestableFlag && st == Augment(rows[j]);
        if j < |init| {
          assert init[j] == rows[j];
        }
      }
    }
  }

  /** No row after `j` (among the first `n`) carries row `j`'s identifier. */
  predicate LastWithId(rows: seq<Station>, j: nat, n: nat)
    requires j < n <= |rows|
  {
    forall k :: j < k < n ==> rows[k].id != rows[j].id
  }

  /** The identifiers among the first `n` rows. */
  function IdsBefore(rows: seq<Station>, n: nat): set<string>
    requires n <= |rows|
  {
    set j | 0 <= j < n :: rows[j].id
  }

  /** What the fold has built after the first `n` rows. */
  predicate LoadedBefore(rows: seq<Station>, n: nat, byId: map<string, Station>)
    requires n <= |rows|
  {
    && byId.Keys == IdsBefore(rows, n)
    && forall j :: 0 <= j < n && LastWithId(rows, j, n) ==> byId[rows[j].id] == Augment(rows[j])
  }

  /** One more row adds its identifier to those seen. */
  lemma IdsStep(rows: seq<Station>, n: nat)
    requires n < |rows|
    ensures IdsBefore(rows, n + 1) == IdsBefore(rows, n) + {rows[n].id}
  {
    forall x | x in IdsBefore(rows, n + 1)
      ensures x in IdsBefore(rows, n) + {rows[n].id}
    {
      var j :| 0 <= j < n + 1 && rows[j].id == x;
      if j < n {
        assert x in IdsBefore(rows, n);
      }
    }
  }

  /** Storing row `n` under its identifier extends what was built to the first n+1 rows. */
  lemma LoadStep(rows: seq<Station>, n: nat, byId: map<string, Station>)
    requires n < |rows|
    requires LoadedBefore(rows, n, byId)
    ensures LoadedBefore(rows, n + 1, byId[rows[n].id := Augment(rows[n])])
  {
    var byId' := byId[rows[n].id := Augment(rows[n])];
    IdsStep(rows, n);
    forall j | 0 <= j < n + 1 && LastWithId(rows, j, n + 1)
      ensures byId'[rows[j].id] == Augment(rows[j])
    {
      if j < n {
        assert rows[n].id != rows[j].id;
        assert LastWithId(rows, j, n);
      }
    }
  }

  /**
   * The start-up fold over the parsed rows: qualify each row's name, store
   * it under its identifier (a later duplicate replaces an earlier one), and
   * append it to the suggestion list when its flag is exactly "t".
   */
  method LoadStations(rows: seq<Station>) returns (byId: map<string, Station>, suggestable: seq<Station>)
    ensures byId.Keys == set j | 0 <= j < |rows| :: rows[j].id
    ensures forall j :: 0 <= j < |rows| && LastWithId(rows, j, |rows|) ==> byId[rows[j].id] == Augment(rows[j])
    ensures suggestable == Suggestables(rows)
  {
    byId := map[];
    suggestable := [];
    var i := 0;
    while i < |rows|
      invariant i <= |rows|
      invariant LoadedBefore(rows, i, byId)
      invariant suggestable == Suggestables(rows[..i])
    {
      LoadStep(rows, i, byId);
      var station := Augment(rows[i]);
      byId := byId[station.id := station];
      if station.isSuggestable == SuggestableFlag {
        suggestable := suggestable + [station];
      }
      assert rows[..i + 1][..i] == rows[..i];
      i := i + 1;
    }
    assert rows[..i] == rows;
  }
}
