# Shape parser model

A Dafny model of the shape parser in `assignment.py`. A shape is named (`Square`,
`Rectangle` or `Circle`) and described by whitespace-separated parameter tokens. Those
tokens are keyword groups: `TopRight x y`, `BottomLeft x y`, `Side n`, `Center x y` and
`Radius n`. Each shape class walks its tokens with a `while` loop. The loop stores every
value it reads through `_parse_int`, which yields None for text that is not an integer.
After the loop, the shape decides whether the fields it needs are all set and consistent.

Modules:

- `Optional` (`option.dfy`): the Option type. It stands for Python's `None` or a value.
- `IntText` (`int_text.dfy`): `Shape._parse_int` as `ParseInt`. `Decimal` is its inverse
  (`str(n)`).
- `KeywordGroups` (`keyword_groups.dfy`): the token structure shared by all three parse
  loops, written as pure functions.
  - `Split` cuts the tokens into keyword groups, failing on an unknown keyword or a short
    group. `Flatten` is its inverse.
  - `LastWith` gives the last group with a keyword. A field holds the value of that group,
    because a later group overwrites an earlier one.
  - `Field` is what a field holds after the walk.
  - `ParsePoint` is `parse_point`.
- `Rectangles`, `Squares`, `Circles`: one class per shape, with the same fields as the
  Python class. Each `Parse` method is the source's loop. Its postcondition ties the
  result and the new fields to a pure specification, `RectangleParse`, `SquareParse` or
  `CircleParse`. That specification is a function of the fields on entry and the tokens.
- `Registry` (`registry.dfy`): `ALL_SHAPES`, the `name()` methods and `find_shape`.

The Python fields are class attributes that default to None. A parse on a new object
therefore starts from the all-unset state (`RectangleUnset` and the like). A parse on an
object that was already used keeps any field the tokens do not overwrite. The
specifications take the state on entry so that this case is modelled as well.

Behaviour followed as the code has it:

- `TopRight a b` stores `a` in `top` and `b` in `right`, and `BottomLeft c d` stores `c`
  in `bottom` and `d` in `left`, because `parse_point` returns `(x, y)` in token order.
  So the corner rule compares the first values with each other and the second values
  with each other.
- Square accepts a zero or negative side. It then derives `bottom = top - side` and
  `left = right - side` without any check, so its perimeter can be negative.
- Circle accepts any integer radius, including zero and negative ones.

## Model

| member | source | states |
|---|---|---|
| IntText.ParseInt | assignment.py:23-28 | text reads as an integer exactly when it is ASCII decimal digits, optionally after one '+' or '-'; the value is those digits read in base ten, negated after '-'; any other text reads as None instead of raising |
| IntText.ParseIntDecimal | assignment.py:23-28 | reading back the decimal text of any integer gives that integer |
| IntText.KeywordsAreNotIntegers | assignment.py:23-28 | no keyword token reads as an integer |
| KeywordGroups.SplitSound | assignment.py:55-69 | a successful walk cuts the tokens into groups that each name a known keyword with exactly its arity of values, and together spell out the tokens |
| KeywordGroups.SplitSpells | assignment.py:55-69 | the groups of a successful walk, written out, are exactly the tokens |
| KeywordGroups.Split | assignment.py:55-69 | every group of a successful walk names a known keyword and carries exactly its arity of values |
| KeywordGroups.SplitFlatten | assignment.py:55-69 | any sequence of well-formed groups, written out as tokens, is walked back into exactly those groups |
| KeywordGroups.WalkStep | assignment.py:58-67 | one loop iteration on a keyword with enough tokens after it adds one well-formed group, and the groups walked still spell out exactly the tokens read so far |
| KeywordGroups.WalkFails | assignment.py:58-69 | a loop that stops at a group start, on an unknown token or a keyword with too few tokens after it, means the input as a whole has no cut |
| KeywordGroups.WalkDone | assignment.py:57 | a loop that ran out of tokens has cut them into exactly the groups it walked |
| KeywordGroups.SplitFailsFast | assignment.py:59-60 | after any prefix of complete groups, an unknown keyword or a short group makes the walk fail, whatever follows |
| KeywordGroups.LastWithFound | assignment.py:61-66 | the last group with a keyword is one of the groups and carries that keyword, and there is none exactly when no group has the keyword |
| KeywordGroups.LastWithAppend | assignment.py:61-66 | in a + b, the last group with a keyword is b's if b has one, and a's otherwise |
| KeywordGroups.LastWithSwap | assignment.py:55-69 | swapping two neighbouring groups with different keywords changes no keyword's last group |
| KeywordGroups.ShadowedGroup | assignment.py:61-66 | a group that a later group with the same keyword overwrites has no effect on any keyword's last group |
| KeywordGroups.SplitRearranged | assignment.py:55-69 | well-formed groups written out in either order of two neighbours are cut back into exactly those groups |
| KeywordGroups.SplitWithout | assignment.py:55-69 | well-formed groups written out with or without one of them are cut back into exactly those groups |
| KeywordGroups.ParsePoint | assignment.py:18-21 | each coordinate of the point is set exactly when its token (the first or the second after index i) is an integer numeral (the same holds for the copy at assignment.py:50-53) |
| KeywordGroups.ParsePointDecimal | assignment.py:18-21 | a point written in decimal after index i reads back as that pair of integers (the same holds for the copy at assignment.py:50-53) |
| Rectangles.RectangleParse | assignment.py:55-75 | a successful parse has all four fields set, with bottom <= top and left <= right |
| Rectangles.Rectangle.constructor | assignment.py:31-35 | a new Rectangle has all four fields unset |
| Rectangles.Rectangle.Parse | assignment.py:55-75 | the loop returns True exactly when the specification accepts the tokens from the fields on entry, and then leaves exactly the specified fields |
| Rectangles.RectangleTopRightStep | assignment.py:58-62 | a `TopRight` group stores its two values in top and right and leaves bottom and left as they were |
| Rectangles.RectangleBottomLeftStep | assignment.py:63-67 | a `BottomLeft` group stores its two values in bottom and left and leaves top and right as they were |
| Rectangles.RectangleStop | assignment.py:58-69 | an unknown token or a short group at a group start makes the parse return False |
| Rectangles.RectangleFinish | assignment.py:70-75 | once the tokens run out, the parse returns True exactly when all four fields are set and the corners are ordered |
| Rectangles.Rectangle.Area | assignment.py:37-40 | height times width, never negative when the corners are ordered |
| Rectangles.Rectangle.Perimeter | assignment.py:42-45 | twice height plus twice width, never negative when the corners are ordered |
| Rectangles.RectangleParsedMeasures | assignment.py:37-45 | after a successful parse, the area and the perimeter are not negative |
| Rectangles.RectangleFromCorners | assignment.py:55-75 | both corner groups in decimal, in either order, are accepted from a new object exactly when bottom <= top and left <= right, and they store the four values |
| Rectangles.RectangleFromGroups | assignment.py:55-75 | each order of the two corner groups, in decimal, gives the outcome stated for RectangleFromCorners |
| Rectangles.RectangleOrderIndependent | assignment.py:55-69 | swapping two neighbouring groups with different keywords gives the same outcome and the same fields |
| Rectangles.RectangleLaterGroupWins | assignment.py:61-66 | a repeated keyword overwrites: dropping the earlier group changes nothing |
| Rectangles.RectangleFailsFast | assignment.py:59-69 | after complete groups, an unknown keyword or a short group rejects the input |
| Rectangles.RectangleNeedsBothCorners | assignment.py:70-74 | from a new object, input that lacks either corner group is rejected |
| Rectangles.RectangleRejectsNonInteger | assignment.py:61-74 | a non-integer value in the group a field is taken from leaves that field None, and the parse fails |
| Rectangles.RectangleTestAccepted | assignment.py:208-222 | both valid test inputs are accepted, and the two test rectangles measure perimeter 4 and area 1, and perimeter 12 and area 9 |
| Rectangles.RectangleTestIncomplete | assignment.py:210-212 | the test inputs with one corner only, or with a bare keyword, are rejected |
| Rectangles.RectangleTestUnknownKeyword | assignment.py:213-215 | the test input whose group start holds a number (line 213) and the one without keywords (line 215) are rejected; line 214 is the next row |
| Rectangles.RectangleTestTrailingKeyword | assignment.py:214 | an unknown keyword after two complete groups is rejected |
| Rectangles.RectangleTestInverted | assignment.py:216 | corners given the wrong way round are rejected |
| Squares.SquareParse | assignment.py:84-105 | a successful parse has top, right and side set, bottom = top - side and left = right - side |
| Squares.Square.constructor | assignment.py:78-79 | a new Square has its side and the four inherited Rectangle fields (lines 32-35) unset |
| Squares.Square.Parse | assignment.py:84-105 | the loop returns True exactly when the specification accepts the tokens from the fields on entry, and then leaves exactly the specified fields, including the derived corner |
| Squares.SquareCornerStep | assignment.py:87-91 | a `TopRight` group stores its two values in top and right and leaves the other fields as they were |
| Squares.SquareSideStep | assignment.py:92-96 | a `Side` group stores its value in side and leaves the other fields as they were |
| Squares.SquareStop | assignment.py:86-98 | an unknown token or a short group at a group start makes the parse return False |
| Squares.SquareFinish | assignment.py:99-105 | once the tokens run out, the parse returns True exactly when top, right and side are set, and then bottom = top - side and left = right - side |
| Squares.Square.Area | assignment.py:37-40 | the inherited area of a square with derived corners is side squared |
| Squares.Square.Perimeter | assignment.py:42-45 | the inherited perimeter of a square with derived corners is four times the side |
| Squares.SquareParsedMeasures | assignment.py:99-105 | after a successful parse, the area is side squared and the perimeter is four times the side |
| Squares.SquareFromCorner | assignment.py:84-105 | a corner and a side in decimal, in either order, are always accepted from a new object, and the bottom-left corner is derived |
| Squares.SquareFromGroups | assignment.py:84-105 | each order of the corner and side groups, in decimal, gives the outcome stated for SquareFromCorner |
| Squares.SquareOrderIndependent | assignment.py:86-98 | swapping two neighbouring groups with different keywords gives the same outcome and the same fields |
| Squares.SquareLaterGroupWins | assignment.py:90-95 | a repeated keyword overwrites: dropping the earlier group changes nothing |
| Squares.SquareFailsFast | assignment.py:88-98 | after complete groups, an unknown keyword or a short group rejects the input |
| Squares.SquareNeedsBothGroups | assignment.py:99-105 | from a new object, input without a corner or without a side is rejected |
| Squares.SquareRejectsNonInteger | assignment.py:90-101 | a non-integer value in the group a field is taken from leaves that field None, and the parse fails |
| Squares.SquareTestAccepted | assignment.py:182-206 | both valid test inputs are accepted, and the test squares store their corner, the derived corner (0, 0) and their side, and measure perimeter 4 and area 1, and perimeter 8 and area 4 |
| Squares.SquareTestIncomplete | assignment.py:184-187 | the test inputs with one group only, or with a keyword missing its values, are rejected |
| Squares.SquareTestUnknownKeyword | assignment.py:188-189 | a trailing unknown keyword and input without keywords are rejected |
| Circles.CircleParse | assignment.py:122-140 | a successful parse has x, y and radius set |
| Circles.Circle.constructor | assignment.py:108-111 | a new Circle has x, y and radius unset |
| Circles.Circle.Parse | assignment.py:122-140 | the loop returns True exactly when the specification accepts the tokens from the fields on entry, and then leaves exactly the specified fields |
| Circles.CircleCenterStep | assignment.py:125-130 | a `Center` group stores its two values in x and y and leaves radius as it was |
| Circles.CircleRadiusStep | assignment.py:131-135 | a `Radius` group stores its value in radius and leaves x and y as they were |
| Circles.CircleStop | assignment.py:124-137 | an unknown token or a short group at a group start makes the parse return False |
| Circles.CircleFinish | assignment.py:138-140 | once the tokens run out, the parse returns True exactly when x, y and radius are all set |
| Circles.CircleFromParts | assignment.py:122-140 | a centre and a radius in decimal, in either order, are always accepted from a new object and stored |
| Circles.CircleFromGroups | assignment.py:122-140 | each order of the centre and radius groups, in decimal, gives the outcome stated for CircleFromParts |
| Circles.CircleOrderIndependent | assignment.py:124-137 | swapping two neighbouring groups with different keywords gives the same outcome and the same fields |
| Circles.CircleLaterGroupWins | assignment.py:125-135 | a repeated keyword overwrites: dropping the earlier group changes nothing |
| Circles.CircleFailsFast | assignment.py:126-137 | after complete groups, an unknown keyword or a short group rejects the input |
| Circles.CircleNeedsBothGroups | assignment.py:138-140 | from a new object, input without a centre or without a radius is rejected |
| Circles.CircleRejectsNonInteger | assignment.py:128-140 | a non-integer value in the group a field is taken from leaves that field None, and the parse fails |
| Circles.CircleTestAccepted | assignment.py:224-225 | both valid test inputs are accepted; so is the one at line 235, which stores the radius 4 |
| Circles.CircleTestIncomplete | assignment.py:226-229 | the test inputs with a centre only, a short centre or a bare keyword are rejected |
| Circles.CircleTestUnknownKeyword | assignment.py:230-231 | a trailing unknown keyword and input without keywords are rejected |
| Registry.ShapeKind.Name | assignment.py:47-48 | each class's name() is one of the three names in the table (also lines 81-82 and 119-120) |
| Registry.AllShapes | assignment.py:143-147 | the table has exactly the keys "Square", "Rectangle" and "Circle", and each maps to the class whose name() is that key |
| Registry.Lookup | assignment.py:143-152 | a class is found exactly for the names "Square", "Rectangle" and "Circle", and that class's name() gives the name back |
| Registry.LookupName | assignment.py:143-147 | every class is found under the name its name() method returns (lines 47-48, 81-82 and 119-120) |
| Registry.NamesDistinct | assignment.py:47-48 | the three name() methods return different names (also lines 81-82 and 119-120) |
| Registry.FindShape | assignment.py:150-152 | None exactly for an unknown name; otherwise a new instance of the named class, with every field unset |
| Registry.EmptyInputRejected | assignment.py:190 | empty input is rejected by every shape from a new object |

## Left out

- `main()` (assignment.py:155-172) is not modelled. It only reads lines from the console and prints results.
- Circle's `get_area` and `get_perimeter` (assignment.py:113-117) are not modelled. They compute with floating-point `pi`, and the tests round their results to three places.
- The abstract methods of `Shape` (assignment.py:6-16) are not modelled. They only raise. Class inheritance is flattened: `Square` carries its own copies of the Rectangle fields and of `get_area`/`get_perimeter`.
- IntText.ParseInt: does not accept what Python's `int()` additionally accepts. That is digit-group underscores (`1_000`), non-ASCII Unicode digits, and surrounding whitespace. For such a token the model reads None where Python reads a number. The whitespace case cannot arise, because every token comes from `str.split()`.
- IntText.ParseInt: does not model the cap that Python 3.11 and later (and 3.10.7 and later) place on `int()`: a numeral of more than 4300 digits raises ValueError there, which `_parse_int` turns into None. The model reads such a token as its value. So Rectangles.RectangleFromCorners, Squares.SquareFromCorner and Circles.CircleFromParts also accept coordinates of more than 4300 digits, which those Python versions reject.
- Rectangles.Rectangle.Parse, Squares.Square.Parse and Circles.Circle.Parse: do not state the fields after a parse that returns False. The Python code leaves whatever the loop had stored so far, and nothing relies on it.
- The Python exception that `get_area`/`get_perimeter` raise on a shape with unset fields is not modelled. The Dafny `Area` and `Perimeter` require the fields to be set instead.
