/** The `import_csv` management command: read the ingredient file, skip its header,
    turn every two-field row into an ingredient, report the others, and insert the
    collected ingredients in one bulk insert. The file is given as its rows. */
module ImportCsv {
  import opened Common
  import opened Models

  /** What the command reports. `NoHeader` stands for the uncaught error raised when the
      file has no first row to skip. */
  datatype ImportResult =
    | FileMissing
    | NoHeader
    | ImportFailed(malformed: seq<seq<string>>)
    | Imported(count: nat, malformed: seq<seq<string>>)

  /** A row the command accepts: exactly two fields, name and unit. */
  predicate IsPair(row: seq<string>)
  {
    |row| == 2
  }

  /** The ingredients the accepted rows describe, in file order. */
  function RowIngredients(rows: seq<seq<string>>): (r: seq<Ingredient>)
    ensures |r| <= |rows|
    ensures forall i | 0 <= i < |r| :: exists j | 0 <= j < |rows| :: IsPair(rows[j]) && r[i] == Ingredient(rows[j][0], rows[j][1])
  {
    if |rows| == 0 then []
    else
      var rest := RowIngredients(rows[1..]);
      assert forall j | 0 <= j < |rows[1..]| :: rows[1..][j] == rows[j + 1];
      if IsPair(rows[0]) then [Ingredient(rows[0][0], rows[0][1])] + rest else rest
  }

  /** The rows reported as malformed, in file order. */
  function MalformedRows(rows: seq<seq<string>>): (r: seq<seq<string>>)
    ensures forall i | 0 <= i < |r| :: !IsPair(r[i])
  {
    if |rows| == 0 then []
    else (if IsPair(rows[0]) then [] else [rows[0]]) + MalformedRows(rows[1..])
  }

  /** Both outputs of a file are those of its first part followed by those of the rest:
      the ingredients keep the order of their rows. */
  lemma {:induction false} RowsAppend(a: seq<seq<string>>, b: seq<seq<string>>)
    ensures RowIngredients(a + b) == RowIngredients(a) + RowIngredients(b)
    ensures MalformedRows(a + b) == MalformedRows(a) + MalformedRows(b)
  {
    if |a| > 0 {
      RowsAppend(a[1..], b);
      assert (a + b)[1..] == a[1..] + b;
      assert (a + b)[0] == a[0];
    } else {
      assert a + b == b;
    }
  }

  /** Every row is either turned into an ingredient or reported, and the ingredients are
      as many as the rows with exactly two fields. */
  lemma {:induction false} RowsPartition(rows: seq<seq<string>>)
    ensures |RowIngredients(rows)| + |MalformedRows(rows)| == |rows|
    ensures |RowIngredients(rows)| == |Filter(rows, IsPair)|
  {
    if |rows| > 0 {
      RowsPartition(rows[1..]);
    }
  }

  /** A single row is either collected or reported. */
  lemma OneRow(row: seq<string>)
    ensures RowIngredients([row]) == if IsPair(row) then [Ingredient(row[0], row[1])] else []
    ensures MalformedRows([row]) == if IsPair(row) then [] else [row]
  {
    assert [row][1..] == [];
  }

  /** The row loop: collect an ingredient for every accepted row and report every other. */
  method CollectIngredients(rows: seq<seq<string>>) returns (ingredients: seq<Ingredient>, malformed: seq<seq<string>>)
    ensures ingredients == RowIngredients(rows)
    ensures malformed == MalformedRows(rows)
  {
    ingredients, malformed := [], [];
    var i := 0;
    while i < |rows|
      invariant 0 <= i <= |rows|
      invariant ingredients == RowIngredients(rows[..i])
      invariant malformed == MalformedRows(rows[..i])
    {
      var row := rows[i];
      RowsAppend(rows[..i], [row]);
      PrefixSnoc(rows, i);
      OneRow(row);
      if !IsPair(row) {
        malformed := malformed + [row];
      } else {
        ingredients := ingredients + [Ingredient(row[0], row[1])];
      }
      i := i + 1;
    }
    assert rows[..i] == rows;
  }

  /** The bulk insert succeeds when it breaks no `(name, measurement_unit)` uniqueness:
      no two new ingredients alike and none already present. */
  predicate BatchFits(existing: map<IngredientId, Ingredient>, batch: seq<Ingredient>)
  {
    && Distinct(batch)
    && forall i | 0 <= i < |batch| :: batch[i] !in existing.Values
  }

  /** The new rows, numbered from `next` in batch order. */
  function Numbered(next: IngredientId, batch: seq<Ingredient>): (m: map<IngredientId, Ingredient>)
    ensures forall k :: k in m <==> next <= k < next + |batch|
    ensures forall i | 0 <= i < |batch| :: m[next + i] == batch[i]
  {
    if |batch| == 0 then map[]
    else Numbered(next, batch[..|batch| - 1])[next + |batch| - 1 := batch[|batch| - 1]]
  }

  /** A batch that fits, numbered from past every existing id, keeps every
      `(name, measurement_unit)` pair unique. */
  lemma NumberedKeepsPairsUnique(existing: map<IngredientId, Ingredient>, next: IngredientId, batch: seq<Ingredient>)
    requires IngredientPairsUnique(existing) && BatchFits(existing, batch)
    requires forall id | id in existing :: id < next
    ensures IngredientPairsUnique(existing + Numbered(next, batch))
  {
    var added := Numbered(next, batch);
    var all := existing + added;
    forall a, b | a in all && b in all && a != b
      ensures all[a] != all[b]
    {
      if a in added && b in added {
        assert batch[a - next] == added[a];
        assert batch[b - next] == added[b];
      } else if a in added {
        assert added[a] == batch[a - next];
        assert all[b] == existing[b] && existing[b] in existing.Values;
      } else if b in added {
        assert added[b] == batch[b - next];
        assert all[a] == existing[a] && existing[a] in existing.Values;
      }
    }
  }

  /** `handle`: a missing file reports and stops; an empty one fails on the header; a
      batch the table refuses inserts nothing; otherwise every collected ingredient is
      inserted under a fresh id. */
  method Handle(db: Database, fileExists: bool, file: seq<seq<string>>) returns (result: ImportResult)
    requires db.Valid()
    modifies db
    ensures db.Valid()
    ensures !fileExists ==> result == FileMissing && db.Snapshot() == old(db.Snapshot())
    ensures fileExists && |file| == 0 ==> result == NoHeader && db.Snapshot() == old(db.Snapshot())
    ensures fileExists && |file| > 0 && !BatchFits(old(db.ingredients), RowIngredients(file[1..])) ==>
              result == ImportFailed(MalformedRows(file[1..])) && db.Snapshot() == old(db.Snapshot())
    ensures fileExists && |file| > 0 && BatchFits(old(db.ingredients), RowIngredients(file[1..])) ==>
              var batch := RowIngredients(file[1..]);
              && result == Imported(|batch|, MalformedRows(file[1..]))
              && db.Snapshot() == old(db.Snapshot()).(
                   ingredients := old(db.ingredients) + Numbered(old(db.nextIngredientId), batch),
                   nextIngredientId := old(db.nextIngredientId) + |batch|)
  {
    if !fileExists {
      return FileMissing;
    }
    if |file| == 0 {
      return NoHeader;
    }
    var batch, malformed := CollectIngredients(file[1..]);
    if !BatchFits(db.ingredients, batch) {
      return ImportFailed(malformed);
    }
    NumberedKeepsPairsUnique(db.ingredients, db.nextIngredientId, batch);
    db.ingredients := db.ingredients + Numbered(db.nextIngredientId, batch);
    db.nextIngredientId := db.nextIngredientId + |batch|;
    result := Imported(|batch|, malformed);
  }
}
