/** The table of shape names (ALL_SHAPES) and the lookup that creates a fresh shape
    for a name (find_shape). */
module Registry {
  import opened Optional
  import opened Rectangles
  import opened Squares
  import opened Circles

  /** The three shape classes. */
  datatype ShapeKind = SquareKind | RectangleKind | CircleKind {
    /** The text each class's name() method returns: one of the three names the table
        lists. */
    function Name(): (r: string)
      ensures r == "Square" || r == "Rectangle" || r == "Circle"
    {
      match this
      case SquareKind => "Square"
      case RectangleKind => "Rectangle"
      case CircleKind => "Circle"
    }
  }

  /** ALL_SHAPES: the shape names the program accepts, each with the class whose name()
      is that name. */
  function AllShapes(): (table: map<string, ShapeKind>)
    ensures table.Keys == {"Square", "Rectangle", "Circle"}
    ensures forall name | name in table :: table[name].Name() == name
  {
    map["Square" := SquareKind, "Rectangle" := RectangleKind, "Circle" := CircleKind]
  }

  /** Which class find_shape instantiates for a name: one of the three exactly when the
      name is one of the three spellings (case-sensitive), and that class's name() gives
      the name back. */
  function Lookup(name: string): (r: Option<ShapeKind>)
    ensures r.Some? <==> name == "Square" || name == "Rectangle" || name == "Circle"
    ensures r.Some? ==> r.value.Name() == name
  {
    var table := AllShapes();
    if name in table then Some(table[name]) else None
  }

  /** Every class is found under its own name. */
  lemma LookupName(kind: ShapeKind)
    ensures Lookup(kind.Name()) == Some(kind)
  {
  }

  /** Distinct classes have distinct names, so the table has no two entries for one name. */
  lemma NamesDistinct(k1: ShapeKind, k2: ShapeKind)
    ensures k1.Name() == k2.Name() ==> k1 == k2
  {
  }

  /** An instance of one of the three classes. */
  datatype AnyShape =
    | SquareShape(square: Square)
    | RectangleShape(rectangle: Rectangle)
    | CircleShape(circle: Circle)
  {
    function Kind(): ShapeKind {
      match this
      case SquareShape(_) => SquareKind
      case RectangleShape(_) => RectangleKind
      case CircleShape(_) => CircleKind
    }
  }

  /** find_shape: a new instance, with every field unset, of the class the name selects;
      None for any other name. */
  method FindShape(name: string) returns (shape: Option<AnyShape>)
    ensures shape.None? <==> Lookup(name).None?
    ensures shape.Some? ==> Some(shape.value.Kind()) == Lookup(name)
    ensures shape.Some? && shape.value.SquareShape? ==>
      fresh(shape.value.square) && shape.value.square.State() == SquareUnset
    ensures shape.Some? && shape.value.RectangleShape? ==>
      fresh(shape.value.rectangle) && shape.value.rectangle.State() == RectangleUnset
    ensures shape.Some? && shape.value.CircleShape? ==>
      fresh(shape.value.circle) && shape.value.circle.State() == CircleUnset
  {
    match Lookup(name)
    case None =>
      shape := None;
    case Some(SquareKind) =>
      var s := new Square();
      shape := Some(SquareShape(s));
    case Some(RectangleKind) =>
      var r := new Rectangle();
      shape := Some(RectangleShape(r));
    case Some(CircleKind) =>
      var c := new Circle();
      shape := Some(CircleShape(c));
  }

  /** Empty input: no shape accepts an empty parameter list from a fresh object. */
  lemma EmptyInputRejected()
    ensures RectangleParse(RectangleUnset, []) == None
    ensures SquareParse(SquareUnset, []) == None
    ensures CircleParse(CircleUnset, []) == None
  {
  }
}
