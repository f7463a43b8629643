/** The matrix store of src/lib.rs: a dense grid of numbers with its shape,
    built zero-filled, copied, parsed from text, and turned into an
    identity in place. Entries are exact reals, not 64-bit floats. */
module Matrices {
  import opened Wrappers
  import opened Strings
  import opened CustomError

  type Grid = seq<seq<real>>

  /** `g` has `rows` rows of `cols` entries each. */
  predicate IsShape<T>(g: seq<seq<T>>, rows: nat, cols: nat)
  {
    |g| == rows && forall i :: 0 <= i < |g| ==> |g[i]| == cols
  }

  /** A non-empty jagged grid whose rows all have the first row's length. */
  predicate Rectangular<T>(g: seq<seq<T>>)
  {
    |g| > 0 && forall i :: 0 <= i < |g| ==> |g[i]| == |g[0]|
  }

  /** `vec![vec![0.0; cols]; rows]`. */
  function Zeros(rows: nat, cols: nat): (g: Grid)
    ensures IsShape(g, rows, cols)
    ensures forall i, j :: 0 <= i < rows && 0 <= j < cols ==> g[i][j] == 0.0
  {
    seq(rows, _ => seq(cols, _ => 0.0))
  }

  /** The `n × n` identity: ones on the diagonal, zeros elsewhere. */
  function IdentityGrid(n: nat): Grid
  {
    seq(n, i => seq(n, j => if i == j then 1.0 else 0.0))
  }

  /** The separator-delimited tokens of every line, line by line. */
  function Tokens(lines: seq<string>, sep: char): seq<seq<string>>
  {
    seq(|lines|, i requires 0 <= i < |lines| => Split(lines[i], sep))
  }

  /** Every token is a number to the numeric parser `parse`. */
  predicate AllParse(t: seq<seq<string>>, parse: string -> Option<real>)
  {
    forall i, j :: 0 <= i < |t| && 0 <= j < |t[i]| ==> parse(t[i][j]).Some?
  }

  /** `g` holds, position by position, the numbers the tokens of `t` denote. */
  predicate Parsed(t: seq<seq<string>>, parse: string -> Option<real>, g: Grid)
  {
    && |g| == |t|
    && forall i :: 0 <= i < |t| ==>
         && |g[i]| == |t[i]|
         && forall j :: 0 <= j < |t[i]| ==> parse(t[i][j]) == Some(g[i][j])
  }

  /** The panic `from_str` and `identity` raise on a malformed shape. */
  const NotAValidMatrix: Panic := DimensionFailure("Not a valid matrix!")

  class Matrix {
    var rows: nat
    var cols: nat
    var data: Grid

    /** The fields agree with the grid, as every constructor of the library leaves them. */
    ghost predicate Valid()
      reads this
    {
      IsShape(data, rows, cols)
    }

    /** The struct literal `Matrix { rows, cols, data }`. */
    constructor (rows: nat, cols: nat, data: Grid)
      ensures this.rows == rows && this.cols == cols && this.data == data
    {
      this.rows := rows;
      this.cols := cols;
      this.data := data;
    }

    /** `Matrix::new(rows, cols)`: a zero-filled `rows × cols` matrix. */
    static method New(rows: nat, cols: nat) returns (m: Matrix)
      ensures fresh(m) && m.Valid()
      ensures m.rows == rows && m.cols == cols && m.data == Zeros(rows, cols)
    {
      m := new Matrix(rows, cols, Zeros(rows, cols));
    }

    /** `copy`: a new matrix with the same shape fields and the same rows,
        pushed one by one. */
    method Copy() returns (m: Matrix)
      ensures fresh(m)
      ensures m.rows == rows && m.cols == cols && m.data == data
    {
      var d: Grid := [];
      var i := 0;
      while i < |data|
        invariant 0 <= i <= |data|
        invariant d == data[..i]
      {
        d := d + [data[i]];
        i := i + 1;
      }
      m := new Matrix(rows, cols, d);
    }

    /** `parse_data`: split every line at `sep` and parse every token, in order.
        The first token that is not a number ends the call with a parse panic. */
    static method ParseData(lines: seq<string>, sep: char, parse: string -> Option<real>)
      returns (r: Result<Grid, Panic>)
      ensures r.Ok? <==> AllParse(Tokens(lines, sep), parse)
      ensures r.Ok? ==> Parsed(Tokens(lines, sep), parse, r.value)
      ensures r.Err? ==> r.error == ParseFailed
    {
      ghost var t := Tokens(lines, sep);
      var data: Grid := [];
      var i := 0;
      while i < |lines|
        invariant 0 <= i <= |lines|
        invariant |data| == i
        invariant forall k :: 0 <= k < i ==>
          && |data[k]| == |t[k]|
          && forall l :: 0 <= l < |t[k]| ==> parse(t[k][l]) == Some(data[k][l])
      {
        var dataRow: seq<real> := [];
        var values := Split(lines[i], sep);
        assert values == t[i];
        var j := 0;
        while j < |values|
          invariant 0 <= j <= |values|
          invariant |dataRow| == j
          invariant forall l :: 0 <= l < j ==> parse(values[l]) == Some(dataRow[l])
        {
          var value := parse(values[j]);
          if value.None? {
            assert parse(t[i][j]).None?;
            return Err(ParseFailed);
          }
          dataRow := dataRow + [value.value];
          j := j + 1;
        }
        data := data + [dataRow];
        i := i + 1;
      }
      r := Ok(data);
    }

    /** `valid_matrix_contents`: every row is as long as the first one.
        The source reads the first row unconditionally, so the grid must not be empty. */
    static method ValidMatrixContents(data: Grid) returns (valid: bool)
      requires |data| > 0
      ensures valid <==> Rectangular(data)
    {
      var columnSize := |data[0]|;
      var i := 0;
      while i < |data|
        invariant 0 <= i <= |data|
        invariant forall k :: 0 <= k < i ==> |data[k]| == columnSize
      {
        if |data[i]| != columnSize {
          return false;
        }
        i := i + 1;
      }
      return true;
    }

    /** `from_str`: rows are separated by `;`, the numbers of a row by `,`.
        A token that is not a number ends in a parse panic; rows of unequal
        length end in the dimension panic "Not a valid matrix!". */
    static method FromStr(s: string, parse: string -> Option<real>) returns (r: Result<Matrix, Panic>)
      ensures var t := Tokens(Split(s, ';'), ',');
        && (r == Err(ParseFailed) <==> !AllParse(t, parse))
        && (AllParse(t, parse) && !Rectangular(t) ==> r == Err(NotAValidMatrix))
        && (AllParse(t, parse) && Rectangular(t) ==>
              && r.Ok? && fresh(r.value) && r.value.Valid()
              && r.value.rows == |t| && r.value.cols == |t[0]|
              && Parsed(t, parse, r.value.data))
    {
      var content := Split(s, ';');
      ghost var t := Tokens(content, ',');
      var parsed := ParseData(content, ',', parse);
      if parsed.Err? {
        return Err(parsed.error);
      }
      var data := parsed.value;
      assert Rectangular(data) <==> Rectangular(t) by {
        assert forall i :: 0 <= i < |t| ==> |data[i]| == |t[i]|;
      }
      var valid := ValidMatrixContents(data);
      if !valid {
        return Err(NotAValidMatrix);
      }
      var m := new Matrix(|data|, |data[0]|, data);
      r := Ok(m);
    }

    /** `identity`: on a square matrix, set every diagonal entry to 1 and leave
        every other entry as it was; on any other matrix, panic without change. */
    method Identity() returns (r: Outcome<Panic>)
      requires Valid()
      modifies this`data
      ensures Valid()
      ensures r == if rows != cols then Fail(NotAValidMatrix) else Pass
      ensures r.Fail? ==> data == old(data)
      ensures r.Pass? ==> forall i, j :: 0 <= i < rows && 0 <= j < cols ==>
                            data[i][j] == if i == j then 1.0 else old(data[i][j])
      ensures r.Pass? && old(data) == Zeros(rows, cols) ==> data == IdentityGrid(rows)
    {
      if cols != rows {
        return Fail(NotAValidMatrix);
      }
      var k := 0;
      while k < rows
        invariant 0 <= k <= rows
        invariant IsShape(data, rows, cols)
        invariant forall i, j :: 0 <= i < rows && 0 <= j < cols ==>
                    data[i][j] == if i == j && i < k then 1.0 else old(data[i][j])
      {
        data := data[k := data[k][k := 1.0]];
        k := k + 1;
      }
      if old(data) == Zeros(rows, cols) {
        assert forall i :: 0 <= i < rows ==> data[i] == IdentityGrid(rows)[i];
      }
      return Pass;
    }
  }

  /** The text `"1,2;3,4"` is the tokens of a 2 × 2 matrix. */
  lemma FromStrSquareExample()
    ensures Tokens(Split("1,2;3,4", ';'), ',') == [["1", "2"], ["3", "4"]]
  {
    var rows := Split("1,2;3,4", ';');
    assert rows == ["1,2", "3,4"] by {
      assert "1,2;3,4" == "1,2" + [';'] + "3,4";
      SplitPair("1,2", ';', "3,4");
    }
    assert Split("1,2", ',') == ["1", "2"] by {
      assert "1,2" == "1" + [','] + "2";
      SplitPair("1", ',', "2");
    }
    assert Split("3,4", ',') == ["3", "4"] by {
      assert "3,4" == "3" + [','] + "4";
      SplitPair("3", ',', "4");
    }
  }

  /** `"1,2;3"` has rows of unequal length, so `FromStr` rejects it. */
  lemma FromStrJaggedExample()
    ensures !Rectangular(Tokens(Split("1,2;3", ';'), ','))
  {
    var rows := Split("1,2;3", ';');
    assert rows == ["1,2", "3"] by {
      assert "1,2;3" == "1,2" + [';'] + "3";
      SplitPair("1,2", ';', "3");
    }
    assert Split("1,2", ',') == ["1", "2"] by {
      assert "1,2" == "1" + [','] + "2";
      SplitPair("1", ',', "2");
    }
    SplitPiece("3", ',');
    var t := Tokens(rows, ',');
    assert |t[0]| == 2 && |t[1]| == 1;
  }

  /** `p + [sep] + q` splits into `p` and `q` when neither holds `sep`. */
  lemma SplitPair(p: string, sep: char, q: string)
    requires sep !in p && sep !in q
    ensures Split(p + [sep] + q, sep) == [p, q]
  {
    SplitFront(p, sep, q);
    SplitPiece(q, sep);
  }

  /** Whatever is later done to a copy leaves the original as it was. */
  method CopyIsIndependent(m: Matrix)
    requires m.Valid()
    ensures m.data == old(m.data) && m.rows == old(m.rows) && m.cols == old(m.cols)
  {
    var c := m.Copy();
    var _ := c.Identity();
    c.data := [];
  }
}
