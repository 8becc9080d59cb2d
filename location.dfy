/**
 * The split of the ride table's location column into city and state
 * (data_cleaning.py:98-99). Values are written "<CITY NAME><2-letter state>";
 * two literal values carry no state and are placed in "LA". The literal test
 * compares the raw value, before any stripping.
 */
module Location {
  import opened Text

  /** The location values that carry no state suffix. */
  const Unsuffixed: set<string> := {"SILICON VALLEY", "ORANGE COUNTY"}

  /** The state placed on the values in `Unsuffixed`. */
  const UnsuffixedState: string := "LA"

  datatype Place = Place(city: string, state: string)

  /** Python's `s[-2:]`: the last two characters, or all of `s` when shorter. */
  function LastTwo(s: string): (r: string)
    ensures |r| == if |s| < 2 then |s| else 2
    ensures r == s[|s| - |r|..]
  {
    if |s| >= 2 then s[|s| - 2..] else s
  }

  /** Python's `s[:-2]`: all but the last two characters, or "" when shorter. */
  function DropLastTwo(s: string): (r: string)
    ensures r + LastTwo(s) == s
  {
    if |s| >= 2 then s[..|s| - 2] else []
  }

  /**
   * The state column (line 98) and the new city column (line 99), both
   * computed from the raw location value `x`.
   */
  function SplitLocation(x: string): (p: Place)
    ensures Stripped(p.city)
    ensures x in Unsuffixed ==> p == Place(x, UnsuffixedState)
    ensures x !in Unsuffixed ==>
      && |p.state| == (if |Strip(x)| < 2 then |Strip(x)| else 2)
      && Strip(x) == DropLastTwo(Strip(x)) + p.state
      && p.city == Strip(DropLastTwo(Strip(x)))
  {
    if x !in Unsuffixed then
      SplitSuffix(Strip(x))
    else
      assert Stripped(x);
      StripPadded([], x, []);
      assert [] + x + [] == x;
      Place(Strip(x), UnsuffixedState)
  }

  /** The general path, on the stripped value: the last two characters are the state. */
  function SplitSuffix(t: string): Place {
    Place(Strip(DropLastTwo(t)), LastTwo(t))
  }

  /**
   * Splitting undoes the location format: a city name, optional whitespace,
   * a two-character state, with any whitespace around the whole, splits into
   * that name and that state, unless the raw value is one of the literals.
   */
  lemma SplitFormatted(lead: string, name: string, sep: string, state: string, trail: string)
    requires AllSpace(lead) && AllSpace(sep) && AllSpace(trail)
    requires name != [] && Stripped(name)
    requires |state| == 2 && !IsSpace(state[1])
    requires lead + name + sep + state + trail !in Unsuffixed
    ensures SplitLocation(lead + name + sep + state + trail) == Place(name, state)
  {
    var x := lead + name + sep + state + trail;
    FormattedStrip(lead, name, sep, state, trail);
    SplitSuffixFormatted(name, sep, state);
    assert SplitLocation(x) == SplitSuffix(Strip(x));
  }

  lemma FormattedStrip(lead: string, name: string, sep: string, state: string, trail: string)
    requires AllSpace(lead) && AllSpace(sep) && AllSpace(trail)
    requires name != [] && !IsSpace(name[0])
    requires |state| == 2 && !IsSpace(state[1])
    ensures Strip(lead + name + sep + state + trail) == name + sep + state
  {
    var m := name + sep + state;
    assert Stripped(m) by {
      assert m[0] == name[0] && m[|m| - 1] == state[1];
    }
    assert lead + name + sep + state + trail == lead + m + trail;
    StripPadded(lead, m, trail);
  }

  lemma SplitSuffixFormatted(name: string, sep: string, state: string)
    requires AllSpace(sep) && Stripped(name) && |state| == 2
    ensures SplitSuffix(name + sep + state) == Place(name, state)
  {
    SuffixOfTwo(name + sep, state);
    StripPadded([], name, sep);
    assert [] + name + sep == name + sep;
  }

  lemma SuffixOfTwo(u: string, state: string)
    requires |state| == 2
    ensures LastTwo(u + state) == state && DropLastTwo(u + state) == u
  {
    assert (u + state)[..|u|] == u;
  }

  /** "NEW YORK NY" is the city New York in the state NY. */
  lemma SplitNewYork()
    ensures SplitLocation("NEW YORK NY") == Place("NEW YORK", "NY")
  {
    var name := "NEW YORK";
    assert Stripped(name) by {
      assert name[0] == 'N' && name[|name| - 1] == 'K';
    }
    assert "NEW YORK NY" == [] + name + " " + "NY" + [];
    SplitFormatted([], name, " ", "NY", []);
  }

  /** With a state written after it, "SILICON VALLEY" is split like any other city. */
  lemma SplitSiliconValleyCA()
    ensures SplitLocation("SILICON VALLEYCA") == Place("SILICON VALLEY", "CA")
  {
    var name := "SILICON VALLEY";
    assert Stripped(name) by {
      assert name[0] == 'S' && name[|name| - 1] == 'Y';
    }
    assert "SILICON VALLEYCA" == [] + name + [] + "CA" + [];
    SplitFormatted([], name, [], "CA", []);
  }

  /**
   * The literal test sees the raw value, so a padded "SILICON VALLEY " takes
   * the general path: its last two letters become the state.
   */
  lemma SplitPaddedLiteral()
    ensures SplitLocation("SILICON VALLEY ") == Place("SILICON VALL", "EY")
  {
    var name := "SILICON VALL";
    assert Stripped(name) by {
      assert name[0] == 'S' && name[|name| - 1] == 'L';
    }
    assert "SILICON VALLEY " == [] + name + [] + "EY" + " ";
    assert AllSpace(" ");
    SplitFormatted([], name, [], "EY", " ");
  }
}
