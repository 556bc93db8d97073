# Smallest admissible tetrahedron, modelled in Dafny

This project models `solution.py`, a small program that reads points from a text file and then
searches for the smallest tetrahedron it can build from them. Each line of the file holds one
point as `(x,y,z,n)`: three coordinates and an associated number `n` between 0 and 100.

Four points are *admissible* when their numbers add up to exactly 100. The program visits every
4-combination of point positions in lexicographic order. Among the admissible combinations of
minimum volume, it reports the positions of the first one in that order. When no combination is
admissible, it reports `[]`.

The model has six modules, one per file:

- `Results` (results.dfy): `Option` and `Result`. They stand for Python's `None` and for the
  exceptions the source raises.
- `Geometry` (geometry.dfy): points, edge vectors, the cross and dot products, the scalar triple
  product and the tetrahedron volume of `return_tetrahedron_volume`. Coordinates are exact reals.
- `Text` (text.dfy): Python's `str.strip(chars)` and `str.split(sep)`. Both are defined in Python's
  terms and characterised by lemmas: strip is unique and idempotent, and split inverts join.
- `Numbers` (numbers.dfy): the `int()` and `float()` conversions the loader applies to each field,
  for plain decimal literals. They trim the whitespace `str.strip()` removes except the
  information separators U+001C..U+001F (`NumberSpace`), which make a field invalid.
- `PointLoader` (loader.dfy): the per-line parsing of `return_coordinates_from_file`, and the loop
  over the lines. The loop either returns one point per line, in order, or fails as a whole on the
  first bad line.
- `TetrahedronSearch` (search.dfy): `return_smallest_valid_tetrahedron_indices`.
  - The four nested enumeration loops are imperative. `SmallestValidTetrahedron` holds the loops
    over the first and second positions. The loops over the third and the fourth positions are
    the methods `ScanThirdAndFourth` and `ScanFourth`.
  - They keep a running best, `Option<Quad>` plus its volume. The invariant `BestBefore` says this
    pair is the first minimum among the admissible combinations visited so far.
  - The method's result is proved against the declarative specification `IsFirstMinimum`.

Blank lines are treated the way the code treats them. A line made only of whitespace cleans to
the empty string, which splits into one field. The line is therefore refused like any other line
with the wrong number of fields, and the whole load fails. Nothing is skipped.

## Model

| member | source | states |
|---|---|---|
| Geometry.TripleProduct | solution.py:13-25 | the scalar triple product AD · (AB × AC) is zero when one of the edges AB, AC, AD is zero; `SwapNegatesTripleProduct` states how it changes when vertices are exchanged |
| Geometry.Volume | solution.py:12-27 | the volume is never negative, and it is zero exactly when the scalar triple product of the edges AB, AC, AD is zero |
| Geometry.CoincidentVerticesGiveZeroVolume | solution.py:12-27 | when any two of the four vertices are at the same place, the volume is zero |
| Geometry.CoplanarVerticesGiveZeroVolume | solution.py:12-27 | when the fourth vertex lies in the plane of the first three (AD = s·AB + t·AC), the volume is zero |
| Geometry.SwapNegatesTripleProduct | solution.py:13-25 | exchanging two adjacent vertices negates the scalar triple product |
| Geometry.VolumeIsSymmetric | solution.py:12-27 | the volume does not change when vertices 1-2, 1-3, 1-4, 2-3 or 3-4 are exchanged, so the choice of p1 as origin does not matter |
| Geometry.UnitCornerVolume | solution.py:12-27 | a corner of an axis-aligned unit cube and its three neighbours have volume 1/6, wherever the corner is |
| Text.Strip | solution.py:37 | the result is a contiguous piece of the line; everything cut from either end is in the stripped set; the result neither starts nor ends with a character of that set |
| Text.StripIsUnique | solution.py:37 | any piece of the line cut in the way `Strip` describes is exactly `Strip`'s result |
| Text.StripIsIdempotent | solution.py:37 | stripping twice gives the same as stripping once |
| Text.StripKeepsCleanEnds | solution.py:37 | a string whose ends are outside the set is returned unchanged |
| Text.StripOfOnlyStrippedIsEmpty | solution.py:37 | a string made only of characters of the set strips to the empty string |
| Text.Split | solution.py:38 | there is always at least one field; no field contains the separator; joining the fields with the separator gives back the line |
| Text.SplitFieldCount | solution.py:38 | the number of fields is the number of separators plus one |
| Text.SplitJoin | solution.py:38 | splitting separator-free fields joined by the separator gives back those fields |
| Text.SplitWithoutSeparator | solution.py:38 | a string without the separator is a single field |
| Numbers.ParseInt | solution.py:43 | `int()` accepts exactly the strings that, once the whitespace `int()` trims is removed, are an optional sign followed by one or more digits; a negative result comes from a leading '-'. `ParseIntOfIntToString` gives the value it reads |
| Numbers.ParseFloat | solution.py:43 | what `float()` accepts is, once trimmed, non-empty and made of digits and points after an optional sign; a negative result comes from a leading '-'. `ParseFloatOfDecimalToString` and `IntLiteralIsFloatLiteral` give the value it reads |
| Numbers.ParseIntOfIntToString | solution.py:43 | `int()` reads back the decimal form of any integer, negative ones included |
| Numbers.IntLiteralIsFloatLiteral | solution.py:43 | whatever `int()` accepts, `float()` accepts too, with the same value |
| Numbers.UnsignedIntIsUnsignedDecimal | solution.py:43 | an unsigned digit string has the same value read as an integer and as a decimal |
| Numbers.InformationSeparatorIsNotTrimmed | solution.py:37-43 | a field starting with U+001C is cleaned by `str.strip()` but refused by both `int()` and `float()` |
| Numbers.ParseFloatOfDecimalToString | solution.py:43 | `float()` reads a number written as an optional '-', integer digits, a point and fraction digits back as its value, the sign applying to the fraction too; this includes values between -1 and 0 such as `-0.5` |
| Numbers.NegativeHalfReadsBack | solution.py:43 | `float("-0.5")` is -0.5 |
| Numbers.UnsignedDecimalWithPoint | solution.py:43 | digits, a point and digits are read as the whole part plus the fraction |
| PointLoader.Clean | solution.py:37 | `line.strip().strip('()')` is a contiguous piece of the line that neither starts nor ends with a parenthesis; `CleanOfParenthesised` and `BlankLineIsRefused` give its value for a parenthesised record and for a blank line |
| PointLoader.Fields | solution.py:37-38 | the cleaned line has one more field than it has commas |
| PointLoader.ParseLine | solution.py:36-51 | a line that is accepted has exactly four fields; its x, y and z are what `float()` makes of the first three and its number is what `int()` makes of the fourth, in 0..100 |
| PointLoader.ParseFields | solution.py:38-51 | the checks run in the source's order (four fields, none empty, numeric, number in range); an accepted record's values are the conversions of its four fields, with the number in 0..100 |
| PointLoader.BlankLineIsRefused | solution.py:37-38 | a line of whitespace alone is refused for having the wrong number of fields |
| PointLoader.CleanOfParenthesised | solution.py:37 | cleaning `(body)` gives `body` when the body does not start or end with a parenthesis |
| PointLoader.SplitFourFields | solution.py:38 | four comma-free fields joined by commas split back into those four fields |
| PointLoader.ParseFormattedRecord | solution.py:36-51 | a record `(x,y,z,n)` with integral coordinates and n in 0..100 reads back as the point (x, y, z, n) |
| PointLoader.FieldsOfRecord | solution.py:37-38 | a line `(a,b,c,d)` whose fields are non-empty, comma-free and not edged by parentheses has the fields a, b, c, d |
| PointLoader.ParseDecimalRecord | solution.py:36-51 | a record whose coordinates are written with a decimal point (such as `-2.5` or `-0.25`) and whose number is in 0..100 reads back as the point with those values |
| PointLoader.ParseFieldsOfNumbers | solution.py:40-51 | four non-empty fields that convert, with the number in 0..100, make that point |
| PointLoader.WrongCommaCountIsRefused | solution.py:37-38 | a cleaned line with other than three commas is refused for its field count |
| PointLoader.EmptyFieldIsRefused | solution.py:38-41 | a line that unpacks into four fields, one of them empty, is refused for the empty field |
| PointLoader.NonNumericFieldIsRefused | solution.py:40-43 | four non-empty fields of which a coordinate does not convert with `float()` or the number does not convert with `int()` are refused as not a number |
| PointLoader.LetterCoordinateIsRefused | solution.py:36-43 | the line `(1,2,a,50)` is refused because `a` is not a number |
| PointLoader.LabelOutOfRangeIsRefused | solution.py:43-49 | four fields that convert, with the number outside 0..100, are refused for the range |
| PointLoader.NumberAboveRangeIsRefused | solution.py:36-49 | the line `1,2,3,150`, written without parentheses, is refused because 150 is out of range |
| PointLoader.LoadCoordinates | solution.py:34-56 | the load succeeds exactly when every line parses. It then gives one point per line, in line order, each number in 0..100. Otherwise it reports the error of a line that fails, all earlier lines having parsed |
| TetrahedronSearch.NumberSumOfFour | solution.py:65-68 | the running sum over a combination is the sum of its four numbers |
| TetrahedronSearch.SumNumbers | solution.py:65-68 | the loop over the four chosen points computes the sum of their numbers |
| TetrahedronSearch.Visit | solution.py:63-74 | one visit keeps the running best's meaning one combination further on. A combination replaces the best only when it is admissible and strictly smaller, so ties keep the earlier one |
| TetrahedronSearch.ScanFourth | solution.py:62-74 | the innermost enumeration level carries the running best across all fourth positions |
| TetrahedronSearch.ScanThirdAndFourth | solution.py:62-74 | the two inner enumeration levels carry the running best across all third and fourth positions |
| TetrahedronSearch.AllVisited | solution.py:62-76 | once every combination is visited, "no best" means no admissible combination, and a best is the first minimum |
| TetrahedronSearch.SmallestValidTetrahedron | solution.py:58-76 | the result is empty exactly when no combination is admissible. Otherwise it is four ascending positions below the number of points, whose numbers add up to 100, and whose tetrahedron has the smallest volume: no larger than any admissible one, strictly smaller than every admissible combination visited before it |
| TetrahedronSearch.FirstMinimumIsUnique | solution.py:72-76 | the reported combination is determined by the points: there is at most one first minimum |
| TetrahedronSearch.FourPointsScenario | solution.py:58-76 | with exactly four points whose numbers add up to 100, the answer is positions 0, 1, 2, 3 |

## Left out

- File access is not modelled: the `os.path.isfile` check, `FileNotFoundError` and `open` (solution.py:31-35). The loader receives the lines of the file as a sequence of strings.
- The script part (solution.py:78-88) is not modelled. It loads two fixed data files and prints the results.
- Floating point is not modelled. Coordinates and volumes are exact reals, so rounding, infinities and NaN (which `float()` also accepts as `inf` and `nan`) play no part. `float('inf')` as the initial minimum is modelled by an empty running best, which any admissible combination replaces.
- Numbers.ParseFloat: only plain decimal literals are accepted: an optional sign, digits, and at most one decimal point with at least one digit. Python's `float()` also accepts exponents, `inf`, `nan` and digit-group underscores, which the model refuses. Digits of other scripts, which Python maps to ASCII digits, are refused too. The whitespace trimmed around the literal is modelled exactly (`NumberSpace`).
- Numbers.ParseInt: only an optional sign followed by decimal digits is accepted. Python's `int()` also accepts digit-group underscores and digits of other scripts, which the model refuses. The whitespace trimmed around the literal is modelled exactly (`NumberSpace`).
- Numbers.ParseInt: the limit on the number of digits `int()` converts (4300 by default since Python 3.11, configurable) is not modelled: longer literals, which Python refuses, are accepted.
- The `isinstance` checks at solution.py:45-46 cannot fail after the conversions at line 43, so they have no counterpart.
- Error messages are not modelled. `PointLoader.LineError` keeps the kind of refusal, not the message text, and every kind is the `ValueError` the source raises.
- `itertools.combinations` produces combinations lazily. The model enumerates them with four nested loops in the same lexicographic order: the loops over the first and second positions are in `SmallestValidTetrahedron`, the loop over the third is `ScanThirdAndFourth`, the loop over the fourth is `ScanFourth`, and the loop body is `Visit`.
- The result of `sorted(...)` is not computed by a sort: the combination is already ascending, so sorting returns it unchanged.
