/** The (bank code, branch code) reference set
    (backend/storage/bankcode_store.py). The CSV file is abstracted to the
    sequence of rows `csv.DictReader` yields, each a map from column name to
    cell text. */
module BankCodes {
  import opened Text

  type Row = map<string, string>

  /** `(row.get(column) or "").strip()`. */
  function Cell(row: Row, column: string): string {
    if column in row then Strip(row[column]) else ""
  }

  /** The pair a row contributes, if both of its stripped codes are
      non-empty. */
  predicate Contributes(row: Row) {
    Cell(row, "Bank_Code") != "" && Cell(row, "Branch_Code") != ""
  }

  function PairOf(row: Row): (string, string) {
    (Cell(row, "Bank_Code"), Cell(row, "Branch_Code"))
  }

  /** The pairs loaded from `rows`. */
  function LoadedPairs(rows: seq<Row>): set<(string, string)> {
    if rows == [] then {}
    else
      var last := rows[|rows| - 1];
      LoadedPairs(rows[..|rows| - 1]) + (if Contributes(last) then {PairOf(last)} else {})
  }

  /** Each contributing row's pair is loaded. */
  lemma {:induction false} LoadedPairsHas(rows: seq<Row>, i: nat)
    requires i < |rows| && Contributes(rows[i])
    ensures PairOf(rows[i]) in LoadedPairs(rows)
  {
    var init := rows[..|rows| - 1];
    if i < |init| {
      LoadedPairsHas(init, i);
      assert init[i] == rows[i];
    }
  }

  /** Each loaded pair comes from a contributing row. */
  lemma {:induction false} LoadedPairsFrom(rows: seq<Row>, p: (string, string))
    requires p in LoadedPairs(rows)
    ensures exists i :: 0 <= i < |rows| && Contributes(rows[i]) && PairOf(rows[i]) == p
  {
    var init := rows[..|rows| - 1];
    if p in LoadedPairs(init) {
      LoadedPairsFrom(init, p);
      var i :| 0 <= i < |init| && Contributes(init[i]) && PairOf(init[i]) == p;
      assert rows[i] == init[i];
    } else {
      assert Contributes(rows[|rows| - 1]) && PairOf(rows[|rows| - 1]) == p;
    }
  }

  /** A pair is loaded exactly when some row contributes it. */
  lemma LoadedPairsSpec(rows: seq<Row>, p: (string, string))
    ensures p in LoadedPairs(rows) <==>
            exists i :: 0 <= i < |rows| && Contributes(rows[i]) && PairOf(rows[i]) == p
  {
    if p in LoadedPairs(rows) {
      LoadedPairsFrom(rows, p);
    }
    if exists i :: 0 <= i < |rows| && Contributes(rows[i]) && PairOf(rows[i]) == p {
      var i :| 0 <= i < |rows| && Contributes(rows[i]) && PairOf(rows[i]) == p;
      LoadedPairsHas(rows, i);
    }
  }

  /** Every loaded pair is made of stripped, non-empty codes. */
  lemma LoadedPairsStripped(rows: seq<Row>, p: (string, string))
    requires p in LoadedPairs(rows)
    ensures p.0 != "" && p.1 != "" && Strip(p.0) == p.0 && Strip(p.1) == p.1
  {
    LoadedPairsSpec(rows, p);
    var i :| 0 <= i < |rows| && Contributes(rows[i]) && PairOf(rows[i]) == p;
    StripIdempotent(if "Bank_Code" in rows[i] then rows[i]["Bank_Code"] else "");
    StripIdempotent(if "Branch_Code" in rows[i] then rows[i]["Branch_Code"] else "");
  }

  class BankCodeStore {
    var pairs: set<(string, string)>

    constructor ()
      ensures pairs == {}
    {
      pairs := {};
    }

    /** `load`: clears the set, then adds the pair of every row whose
        stripped codes are both non-empty. */
    method Load(rows: seq<Row>)
      modifies this
      ensures pairs == LoadedPairs(rows)
    {
      pairs := {};
      var i := 0;
      while i < |rows|
        invariant 0 <= i <= |rows|
        invariant pairs == LoadedPairs(rows[..i])
      {
        assert rows[..i + 1][..i] == rows[..i];
        var bank := Cell(rows[i], "Bank_Code");
        var branch := Cell(rows[i], "Branch_Code");
        if bank != "" && branch != "" {
          pairs := pairs + {(bank, branch)};
        }
        i := i + 1;
      }
      assert rows[..|rows|] == rows;
    }

    /** `is_valid`: the stripped pair is one that was loaded. */
    predicate IsValid(bankCode: string, branchCode: string)
      reads this
    {
      (Strip(bankCode), Strip(branchCode)) in pairs
    }

    /** After `Load(rows)`, `is_valid(b, r)` holds exactly when some row's
        stripped codes are the stripped `b` and `r`; surrounding whitespace
        on either side makes no difference. */
    lemma IsValidSpec(rows: seq<Row>, bankCode: string, branchCode: string)
      requires pairs == LoadedPairs(rows)
      ensures IsValid(bankCode, branchCode) <==>
              exists i :: 0 <= i < |rows| && Contributes(rows[i])
                          && PairOf(rows[i]) == (Strip(bankCode), Strip(branchCode))
      ensures IsValid(bankCode, branchCode) == IsValid(Strip(bankCode), Strip(branchCode))
    {
      LoadedPairsSpec(rows, (Strip(bankCode), Strip(branchCode)));
      StripIdempotent(bankCode);
      StripIdempotent(branchCode);
    }
  }
}
