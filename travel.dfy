/** The fixed travel-time table between the named regions (main.py, calculate_travel_time). */
module Travel {

  /** Travel time in hours from one location to another. The same location
      costs nothing, East and West are two hours apart, North and South one
      hour, and any other pair of different locations (unknown names
      included) half an hour. */
  function TravelTime(from: string, to: string): (t: real)
    ensures t == 0.0 || t == 0.5 || t == 1.0 || t == 2.0
  {
    if from == to then 0.0
    else if {from, to} == {"East", "West"} then 2.0
    else if {from, to} == {"North", "South"} then 1.0
    else 0.5
  }

  /** An unordered pair of two different names equals {a, b} exactly when
      (a, b) is one of its two orderings. */
  lemma PairEquality(a: string, b: string, x: string, y: string)
    requires x != y
    ensures {a, b} == {x, y} <==> (a == x && b == y) || (a == y && b == x)
  {
    if {a, b} == {x, y} {
      assert x in {a, b} && y in {a, b};
      assert a in {x, y} && b in {x, y};
    }
  }

  /** The table has zero travel exactly on the diagonal. */
  lemma TravelTimeZeroIffSame(a: string, b: string)
    ensures TravelTime(a, b) == 0.0 <==> a == b
  {
  }

  /** Travel time does not depend on the direction of travel. */
  lemma TravelTimeSymmetric(a: string, b: string)
    ensures TravelTime(a, b) == TravelTime(b, a)
  {
    assert {a, b} == {b, a};
  }

  /** The whole table, stated on ordered pairs: two hours for East/West in
      either direction, one hour for North/South in either direction, and
      half an hour for every other pair of distinct locations. */
  lemma TravelTimeTable(a: string, b: string)
    ensures TravelTime(a, b) == 2.0 <==> (a == "East" && b == "West") || (a == "West" && b == "East")
    ensures TravelTime(a, b) == 1.0 <==> (a == "North" && b == "South") || (a == "South" && b == "North")
    ensures TravelTime(a, b) == 0.5 <==>
      a != b
      && !((a == "East" && b == "West") || (a == "West" && b == "East"))
      && !((a == "North" && b == "South") || (a == "South" && b == "North"))
  {
    PairEquality(a, b, "East", "West");
    PairEquality(a, b, "North", "South");
  }
}
