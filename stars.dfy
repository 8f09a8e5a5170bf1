/**
 * The plain star record of models.py: any name and temperature are
 * accepted, and `__str__` renders them in a fixed format. The temperature
 * is carried as the text Python would print for it.
 */
module Stars {

  /** A star; construction checks nothing. */
  datatype Star = Star(name: string, temperature: string) {

    /** `Star.__str__`: `<name> (Temperature: <temperature>K)`. */
    function ToString(): (s: string)
      ensures |s| == |name| + |" (Temperature: "| + |temperature| + |"K)"|
      ensures s[..|name|] == name
      ensures s[|name|..|name| + |" (Temperature: "|] == " (Temperature: "
      ensures s[|name| + |" (Temperature: "|..|s| - |"K)"|] == temperature
      ensures s[|s| - |"K)"|..] == "K)"
    {
      name + " (Temperature: " + temperature + "K)"
    }
  }

  /** Two stars with the same name render alike exactly when their temperatures agree. */
  lemma {:induction false} RenderDeterminesTemperature(a: Star, b: Star)
    requires a.name == b.name
    ensures a.ToString() == b.ToString() <==> a.temperature == b.temperature
  {
    if a.ToString() == b.ToString() {
      var k := |a.name| + |" (Temperature: "|;
      assert a.temperature == a.ToString()[k..|a.ToString()| - 2];
      assert b.temperature == b.ToString()[k..|b.ToString()| - 2];
    }
  }

  /** The sun of the demonstration renders as `Sun (Temperature: 5778K)`. */
  lemma SunExample()
    ensures Star("Sun", "5778").ToString() == "Sun (Temperature: 5778K)"
  {
  }
}
