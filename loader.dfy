/**
 * Turning the lines of the points file into points (`return_coordinates_from_file` in
 * solution.py, without the file access): each line is cleaned, split into four fields,
 * converted, and range-checked, and the first bad line fails the whole load.
 */
module PointLoader {
  import opened Results
  import opened Text
  import opened Numbers
  import opened Geometry

  /** Why a line was refused; every one of these is a `ValueError` in the source. */
  datatype LineError =
    | WrongFieldCount   // the cleaned line does not split into exactly four fields
    | EmptyField        // one of the four fields is empty
    | NotANumber        // a coordinate is not a decimal number or the fourth field not an integer
    | LabelOutOfRange   // the associated number lies outside 0..100

  /**
   * `line.strip().strip('()')`: a contiguous piece of the line that neither starts nor ends
   * with a parenthesis.
   */
  function Clean(line: string): (r: string)
    ensures CleanPieceOf(line, r)
  {
    CleanIsPiece(line, Strip(line, Whitespace), Strip(Strip(line, Whitespace), Parentheses));
    Strip(Strip(line, Whitespace), Parentheses)
  }

  /** `r` is a piece of `line` that neither starts nor ends with a parenthesis. */
  ghost predicate CleanPieceOf(line: string, r: string)
  {
    && (exists i :: PieceAt(line, i, r))
    && (r != [] ==> r[0] !in Parentheses && r[|r| - 1] !in Parentheses)
  }

  lemma CleanIsPiece(line: string, w: string, r: string)
    requires w == Strip(line, Whitespace) && r == Strip(w, Parentheses)
    ensures CleanPieceOf(line, r)
  {
    var i :| StrippedAt(line, Whitespace, i, w);
    var j :| StrippedAt(w, Parentheses, j, r);
    PieceOfPiece(line, w, r, i, j);
  }

  lemma PieceOfPiece(line: string, w: string, r: string, i: int, j: int)
    requires PieceAt(line, i, w) && PieceAt(w, j, r)
    ensures PieceAt(line, i + j, r)
  {
    assert forall k :: 0 <= k < |r| ==> r[k] == w[j + k] == line[i + j + k];
  }

  /** `r` is the piece of `line` that starts at position `i`. */
  ghost predicate PieceAt(line: string, i: int, r: string)
  {
    0 <= i <= |line| - |r| && r == line[i..i + |r|]
  }

  /** The comma-separated fields of the cleaned line. */
  function Fields(line: string): (fields: seq<string>)
    ensures |fields| == Count(Clean(line), ',') + 1
  {
    SplitFieldCount(Clean(line), ',');
    Split(Clean(line), ',')
  }

  /** One line of the file as a point, or the reason it is refused. */
  function ParseLine(line: string): (r: Result<Point, LineError>)
    ensures r.Success? ==> 0 <= r.value.number <= 100
    ensures r.Success? ==> var fields := Fields(line);
              && |fields| == 4
              && ParseFloat(fields[0]) == Some(r.value.x) && ParseFloat(fields[1]) == Some(r.value.y)
              && ParseFloat(fields[2]) == Some(r.value.z) && ParseInt(fields[3]) == Some(r.value.number)
  {
    ParseFields(Fields(line))
  }

  /** The four fields of a cleaned line as a point. */
  function ParseFields(fields: seq<string>): (r: Result<Point, LineError>)
    ensures r.Success? ==> 0 <= r.value.number <= 100
    ensures r.Success? ==>
              && |fields| == 4
              && ParseFloat(fields[0]) == Some(r.value.x) && ParseFloat(fields[1]) == Some(r.value.y)
              && ParseFloat(fields[2]) == Some(r.value.z) && ParseInt(fields[3]) == Some(r.value.number)
  {
    if |fields| != 4 then Failure(WrongFieldCount)
    else if fields[0] == [] || fields[1] == [] || fields[2] == [] || fields[3] == [] then Failure(EmptyField)
    else
      match (ParseFloat(fields[0]), ParseFloat(fields[1]), ParseFloat(fields[2]), ParseInt(fields[3]))
      case (Some(x), Some(y), Some(z), Some(n)) =>
        if 0 <= n <= 100 then Success(Point(x, y, z, n)) else Failure(LabelOutOfRange)
      case _ => Failure(NotANumber)
  }

  /**
   * The loop of the source over the lines: a point per line, in line order, or the error of
   * the first line that is refused, with no partial list.
   */
  method LoadCoordinates(lines: seq<string>) returns (r: Result<seq<Point>, LineError>)
    ensures r.Success? <==> forall i :: 0 <= i < |lines| ==> ParseLine(lines[i]).Success?
    ensures r.Success? ==> |r.value| == |lines|
    ensures r.Success? ==> forall i :: 0 <= i < |lines| ==> ParseLine(lines[i]) == Success(r.value[i])
    ensures r.Success? ==> forall i :: 0 <= i < |r.value| ==> 0 <= r.value[i].number <= 100
    ensures r.Failure? ==> exists k :: 0 <= k < |lines| && ParseLine(lines[k]) == Failure(r.error)
                                      && forall i :: 0 <= i < k ==> ParseLine(lines[i]).Success?
  {
    var coordinates: seq<Point> := [];
    for i := 0 to |lines|
      invariant |coordinates| == i
      invariant forall j :: 0 <= j < i ==> ParseLine(lines[j]) == Success(coordinates[j])
    {
      var parsed := ParseLine(lines[i]);
      if parsed.Failure? {
        r := Failure(parsed.error);
        assert ParseLine(lines[i]) == Failure(r.error);
        return;
      }
      var next := coordinates + [parsed.value];
      forall j | 0 <= j < i + 1
        ensures ParseLine(lines[j]) == Success(next[j])
      {
        if j < i {
          assert next[j] == coordinates[j];
        } else {
          assert j == i;
        }
      }
      coordinates := next;
    }
    r := Success(coordinates);
  }

  /** How a record with integral coordinates is written in the points file: "(x,y,z,n)". */
  function FormatRecord(x: int, y: int, z: int, n: int): string
  {
    "(" + IntToString(x) + "," + IntToString(y) + "," + IntToString(z) + "," + IntToString(n) + ")"
  }

  /** A whitespace-only line (a blank line) is refused as having the wrong number of fields. */
  lemma BlankLineIsRefused(line: string)
    requires forall k :: 0 <= k < |line| ==> line[k] in Whitespace
    ensures ParseLine(line) == Failure(WrongFieldCount)
  {
    StripOfOnlyStrippedIsEmpty(line, Whitespace);
    StripKeepsCleanEnds([], Parentheses);
  }

  /** Cleaning a line that is a body in one pair of parentheses gives the body. */
  lemma CleanOfParenthesised(body: string)
    requires body != [] && body[0] !in Parentheses && body[|body| - 1] !in Parentheses
    ensures Clean("(" + body + ")") == body
  {
    StripOuterParentheses(body);
    StripKeepsCleanEnds("(" + body + ")", Whitespace);
  }

  lemma StripOuterParentheses(body: string)
    requires body != [] && body[0] !in Parentheses && body[|body| - 1] !in Parentheses
    ensures Strip("(" + body + ")", Parentheses) == body
  {
    var line := "(" + body + ")";
    assert line[1..1 + |body|] == body;
    assert line[0] in Parentheses && line[|line| - 1] in Parentheses;
    assert StrippedAt(line, Parentheses, 1, body);
    StripIsUnique(line, Parentheses, 1, body);
  }

  /** Four comma-free fields joined by commas split back into those fields. */
  lemma SplitFourFields(a: string, b: string, c: string, d: string)
    requires ',' !in a && ',' !in b && ',' !in c && ',' !in d
    ensures Split(a + "," + b + "," + c + "," + d, ',') == [a, b, c, d]
  {
    var cd := c + [','] + d;
    var bcd := b + [','] + cd;
    assert a + "," + b + "," + c + "," + d == a + [','] + bcd;
    calc {
      Split(a + [','] + bcd, ',');
    == { SplitPrefix(a, bcd, ','); }
      [a] + Split(bcd, ',');
    == { SplitPrefix(b, cd, ','); }
      [a] + ([b] + Split(cd, ','));
    == { SplitPrefix(c, d, ','); }
      [a] + ([b] + ([c] + Split(d, ',')));
    == { SplitWithoutSeparator(d, ','); }
      [a, b, c, d];
    }
  }

  /** What a field of a record looks like: non-empty, without commas, not starting or ending with a parenthesis. */
  predicate FieldShape(f: string)
  {
    f != [] && ',' !in f && f[0] !in Parentheses && f[|f| - 1] !in Parentheses
  }

  /** An integer as `str()` writes it has the shape of a field. */
  lemma NumeralShape(v: int)
    ensures FieldShape(IntToString(v))
  {
    var s := IntToString(v);
    assert forall k :: 0 <= k < |s| ==> s[k] != ',';
    assert s[0] == '-' || IsDigit(s[0]);
  }

  /** A number written with a decimal point has the shape of a field. */
  lemma DecimalShape(d: Decimal)
    requires ValidDecimal(d)
    ensures FieldShape(DecimalToString(d))
  {
  }

  /** The fields of a line "(a,b,c,d)" are a, b, c and d. */
  lemma FieldsOfRecord(a: string, b: string, c: string, d: string)
    requires FieldShape(a) && FieldShape(b) && FieldShape(c) && FieldShape(d)
    ensures Fields("(" + a + "," + b + "," + c + "," + d + ")") == [a, b, c, d]
  {
    var body := a + "," + b + "," + c + "," + d;
    assert body[0] == a[0] && body[|body| - 1] == d[|d| - 1];
    assert "(" + a + "," + b + "," + c + "," + d + ")" == "(" + body + ")";
    CleanOfParenthesised(body);
    SplitFourFields(a, b, c, d);
  }

  /** A record with integral coordinates, written the way the points file writes one, reads back as that point. */
  lemma {:induction false} ParseFormattedRecord(x: int, y: int, z: int, n: int)
    requires 0 <= n <= 100
    ensures ParseLine(FormatRecord(x, y, z, n)) == Success(Point(x as real, y as real, z as real, n))
  {
    var sx, sy, sz, sn := IntToString(x), IntToString(y), IntToString(z), IntToString(n);
    FieldsOfFormattedRecord(x, y, z, n);
    ParseIntOfIntToString(x);
    ParseIntOfIntToString(y);
    ParseIntOfIntToString(z);
    ParseIntOfIntToString(n);
    IntLiteralIsFloatLiteral(sx, x);
    IntLiteralIsFloatLiteral(sy, y);
    IntLiteralIsFloatLiteral(sz, z);
    ParseFieldsOfNumbers([sx, sy, sz, sn], x as real, y as real, z as real, n);
  }

  /** Four non-empty fields that convert, with the number in range, make a point. */
  lemma ParseFieldsOfNumbers(fields: seq<string>, x: real, y: real, z: real, n: int)
    requires |fields| == 4 && fields[0] != [] && fields[1] != [] && fields[2] != [] && fields[3] != []
    requires ParseFloat(fields[0]) == Some(x) && ParseFloat(fields[1]) == Some(y)
    requires ParseFloat(fields[2]) == Some(z) && ParseInt(fields[3]) == Some(n)
    requires 0 <= n <= 100
    ensures ParseFields(fields) == Success(Point(x, y, z, n))
  {
  }

  /** The fields of a formatted record are its four numerals. */
  lemma FieldsOfFormattedRecord(x: int, y: int, z: int, n: int)
    ensures Fields(FormatRecord(x, y, z, n)) == [IntToString(x), IntToString(y), IntToString(z), IntToString(n)]
  {
    NumeralShape(x);
    NumeralShape(y);
    NumeralShape(z);
    NumeralShape(n);
    FieldsOfRecord(IntToString(x), IntToString(y), IntToString(z), IntToString(n));
  }

  /** How a record with coordinates written with a decimal point appears in the points file: "(x.f,y.f,z.f,n)". */
  function FormatDecimalRecord(x: Decimal, y: Decimal, z: Decimal, n: int): string
    requires ValidDecimal(x) && ValidDecimal(y) && ValidDecimal(z)
  {
    "(" + DecimalToString(x) + "," + DecimalToString(y) + "," + DecimalToString(z) + "," + IntToString(n) + ")"
  }

  /** A record with fractional coordinates and a number in 0..100 reads back as that point. */
  lemma ParseDecimalRecord(x: Decimal, y: Decimal, z: Decimal, n: int)
    requires ValidDecimal(x) && ValidDecimal(y) && ValidDecimal(z)
    requires 0 <= n <= 100
    ensures ParseLine(FormatDecimalRecord(x, y, z, n)) == Success(Point(DecimalValue(x), DecimalValue(y), DecimalValue(z), n))
  {
    FieldsOfDecimalRecord(x, y, z, n);
    ParseDecimalFields(x, y, z, n);
  }

  /** The four numerals of a record with fractional coordinates convert to the point. */
  lemma ParseDecimalFields(x: Decimal, y: Decimal, z: Decimal, n: int)
    requires ValidDecimal(x) && ValidDecimal(y) && ValidDecimal(z)
    requires 0 <= n <= 100
    ensures ParseFields([DecimalToString(x), DecimalToString(y), DecimalToString(z), IntToString(n)])
         == Success(Point(DecimalValue(x), DecimalValue(y), DecimalValue(z), n))
  {
    DecimalCoordinatesConvert(x, y, z);
    ParseIntOfIntToString(n);
    ParseFourNumbers(DecimalToString(x), DecimalToString(y), DecimalToString(z), IntToString(n),
                     DecimalValue(x), DecimalValue(y), DecimalValue(z), n);
  }

  lemma ParseFourNumbers(a: string, b: string, c: string, d: string, x: real, y: real, z: real, n: int)
    requires a != [] && b != [] && c != [] && d != []
    requires ParseFloat(a) == Some(x) && ParseFloat(b) == Some(y) && ParseFloat(c) == Some(z)
    requires ParseInt(d) == Some(n) && 0 <= n <= 100
    ensures ParseFields([a, b, c, d]) == Success(Point(x, y, z, n))
  {
    ParseFieldsOfNumbers([a, b, c, d], x, y, z, n);
  }

  lemma DecimalCoordinatesConvert(x: Decimal, y: Decimal, z: Decimal)
    requires ValidDecimal(x) && ValidDecimal(y) && ValidDecimal(z)
    ensures ParseFloat(DecimalToString(x)) == Some(DecimalValue(x))
    ensures ParseFloat(DecimalToString(y)) == Some(DecimalValue(y))
    ensures ParseFloat(DecimalToString(z)) == Some(DecimalValue(z))
  {
    ParseFloatOfDecimalToString(x);
    ParseFloatOfDecimalToString(y);
    ParseFloatOfDecimalToString(z);
  }

  /** The fields of a record with fractional coordinates are its four numerals. */
  lemma FieldsOfDecimalRecord(x: Decimal, y: Decimal, z: Decimal, n: int)
    requires ValidDecimal(x) && ValidDecimal(y) && ValidDecimal(z)
    ensures Fields(FormatDecimalRecord(x, y, z, n)) == [DecimalToString(x), DecimalToString(y), DecimalToString(z), IntToString(n)]
  {
    DecimalShape(x);
    DecimalShape(y);
    DecimalShape(z);
    NumeralShape(n);
    FieldsOfRecord(DecimalToString(x), DecimalToString(y), DecimalToString(z), IntToString(n));
  }

  /** A cleaned line with other than three commas does not unpack into four fields and is refused. */
  lemma WrongCommaCountIsRefused(line: string)
    requires Count(Clean(line), ',') != 3
    ensures ParseLine(line) == Failure(WrongFieldCount)
  {
  }

  /** A line that unpacks into four fields, one of them empty, is refused for the empty field. */
  lemma EmptyFieldIsRefused(line: string)
    requires |Fields(line)| == 4 && [] in Fields(line)
    ensures ParseLine(line) == Failure(EmptyField)
  {
    EmptyFieldRefusesFields(Fields(line));
  }

  lemma EmptyFieldRefusesFields(fields: seq<string>)
    requires |fields| == 4 && [] in fields
    ensures ParseFields(fields) == Failure(EmptyField)
  {
    assert fields[0] == [] || fields[1] == [] || fields[2] == [] || fields[3] == [];
  }

  /** Four non-empty fields of which one does not convert are refused as not a number. */
  lemma NonNumericFieldIsRefused(fields: seq<string>)
    requires |fields| == 4 && fields[0] != [] && fields[1] != [] && fields[2] != [] && fields[3] != []
    requires ParseFloat(fields[0]).None? || ParseFloat(fields[1]).None?
          || ParseFloat(fields[2]).None? || ParseInt(fields[3]).None?
    ensures ParseFields(fields) == Failure(NotANumber)
  {
  }

  /** A letter where a coordinate belongs: "(1,2,a,50)" is not a number. */
  lemma LetterCoordinateIsRefused()
    ensures ParseLine("(1,2,a,50)") == Failure(NotANumber)
  {
    var fields := ["1", "2", "a", "50"];
    assert FieldShape("1") && FieldShape("2") && FieldShape("a") && FieldShape("50");
    assert "(1,2,a,50)" == "(" + "1" + "," + "2" + "," + "a" + "," + "50" + ")";
    FieldsOfRecord("1", "2", "a", "50");
    LetterIsNotANumber();
    assert ParseLine("(1,2,a,50)") == ParseFields(fields);
  }

  lemma LetterIsNotANumber()
    ensures ParseFloat("a") == None
  {
    StripKeepsCleanEnds("a", NumberSpace);
    SplitWithoutSeparator("a", '.');
    assert !AllDigits("a");
  }

  /** A number above 100: "1,2,3,150", here without parentheses, is refused for its range. */
  lemma NumberAboveRangeIsRefused()
    ensures ParseLine("1,2,3,150") == Failure(LabelOutOfRange)
  {
    var line := "1,2,3,150";
    var fields := ["1", "2", "3", "150"];
    assert FieldShape("1") && FieldShape("2") && FieldShape("3") && FieldShape("150");
    assert line == "1" + "," + "2" + "," + "3" + "," + "150";
    FieldsOfBareRecord("1", "2", "3", "150");
    ParseFieldsOutOfRange();
    assert ParseLine(line) == ParseFields(fields);
  }

  /** The fields of a line "a,b,c,d" written without parentheses are a, b, c and d. */
  lemma FieldsOfBareRecord(a: string, b: string, c: string, d: string)
    requires FieldShape(a) && FieldShape(b) && FieldShape(c) && FieldShape(d)
    requires a[0] !in Whitespace && d[|d| - 1] !in Whitespace
    ensures Fields(a + "," + b + "," + c + "," + d) == [a, b, c, d]
  {
    var line := a + "," + b + "," + c + "," + d;
    assert line[0] == a[0] && line[|line| - 1] == d[|d| - 1];
    StripKeepsCleanEnds(line, Whitespace);
    StripKeepsCleanEnds(line, Parentheses);
    SplitFourFields(a, b, c, d);
  }

  lemma ParseFieldsOutOfRange()
    ensures ParseFields(["1", "2", "3", "150"]) == Failure(LabelOutOfRange)
  {
    NumberOfSmallNumerals();
    ParseIntOfIntToString(1);
    ParseIntOfIntToString(2);
    ParseIntOfIntToString(3);
    ParseIntOfIntToString(150);
    IntLiteralIsFloatLiteral("1", 1);
    IntLiteralIsFloatLiteral("2", 2);
    IntLiteralIsFloatLiteral("3", 3);
    LabelOutOfRangeIsRefused(["1", "2", "3", "150"], 150);
  }

  /** Four numeric fields whose number is outside 0..100 are refused for that reason. */
  lemma LabelOutOfRangeIsRefused(fields: seq<string>, n: int)
    requires |fields| == 4 && fields[0] != [] && fields[1] != [] && fields[2] != [] && fields[3] != []
    requires ParseFloat(fields[0]).Some? && ParseFloat(fields[1]).Some? && ParseFloat(fields[2]).Some?
    requires ParseInt(fields[3]) == Some(n) && (n < 0 || n > 100)
    ensures ParseFields(fields) == Failure(LabelOutOfRange)
  {
  }

  lemma NumberOfSmallNumerals()
    ensures IntToString(1) == "1" && IntToString(2) == "2" && IntToString(3) == "3"
    ensures IntToString(150) == "150"
  {
    assert NatToString(15) == NatToString(1) + ['5'];
    assert NatToString(150) == NatToString(15) + ['0'];
  }
}
