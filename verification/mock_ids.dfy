/**
  The id the in-memory user and lead lists give a new record:
  `String(Math.max(...ids.map(id => parseInt(id))) + 1)`, with `Math.max`'s
  answers for an empty list (minus infinity) and for a list holding a
  non-number (NaN), and how those answers print.
*/
module MockIds {
  import opened Wrappers
  import JsNumber
  import Lists

  /** What `Math.max` returns over parsed ids. */
  datatype JsMax = NegInfinity | NotANumber | Finite(n: int)

  /** `parseInt(id)`, `None` standing for NaN. */
  function Parsed(id: string): Option<int> {
    JsNumber.ParseInt(id)
  }

  /** Every id reads as an integer. */
  predicate AllNumeric(ids: seq<string>) {
    forall i :: 0 <= i < |ids| ==> Parsed(ids[i]).Some?
  }

  /** `Math.max` of one more parsed value and the maximum of the rest. */
  function MaxWith(p: Option<int>, m: JsMax): JsMax {
    if p.None? || m.NotANumber? then NotANumber
    else if m.NegInfinity? then Finite(p.value)
    else if p.value >= m.n then Finite(p.value)
    else m
  }

  /** `Math.max(...values)` over already parsed values. */
  function MaxOfValues(ps: seq<Option<int>>): (r: JsMax)
    ensures r.NegInfinity? <==> ps == []
    ensures r.NotANumber? <==> None in ps
    ensures r.Finite? ==> forall i :: 0 <= i < |ps| ==> ps[i].Some? && ps[i].value <= r.n
  {
    if |ps| == 0 then NegInfinity
    else
      assert forall i :: 1 <= i < |ps| ==> ps[i] == ps[1..][i - 1];
      assert None in ps <==> ps[0] == None || None in ps[1..];
      MaxWith(ps[0], MaxOfValues(ps[1..]))
  }

  /** A finite maximum is one of the values. */
  lemma {:induction false} MaxIsAttained(ps: seq<Option<int>>)
    requires MaxOfValues(ps).Finite?
    ensures Some(MaxOfValues(ps).n) in ps
  {
    var rest := MaxOfValues(ps[1..]);
    if rest.Finite? && ps[0].value < rest.n {
      MaxIsAttained(ps[1..]);
    }
  }

  /** `Math.max(...ids.map(id => parseInt(id)))`. */
  function MaxOf(ids: seq<string>): (r: JsMax)
    ensures r.NegInfinity? <==> ids == []
    ensures r.NotANumber? <==> ids != [] && !AllNumeric(ids)
    ensures r.Finite? ==> forall i :: 0 <= i < |ids| ==> Parsed(ids[i]).value <= r.n
  {
    var ps := Lists.Map(ids, Parsed);
    assert None in ps <==> !AllNumeric(ids) by {
      if None in ps {
        var i :| 0 <= i < |ps| && ps[i] == None;
      }
      if !AllNumeric(ids) {
        var i :| 0 <= i < |ids| && Parsed(ids[i]).None?;
        assert ps[i] == None;
      }
    }
    MaxOfValues(ps)
  }

  /** `String(max + 1)`: minus infinity and NaN stay what they are and print as such. */
  function MaxPlusOne(ids: seq<string>): string {
    match MaxOf(ids)
    case NegInfinity => "-Infinity"
    case NotANumber => "NaN"
    case Finite(n) => JsNumber.IntToString(n + 1)
  }

  /** Over numeric ids, the new id reads as a number above every id, so it is not taken. */
  lemma MaxPlusOneFresh(ids: seq<string>)
    requires ids != [] && AllNumeric(ids)
    ensures Parsed(MaxPlusOne(ids)).Some?
    ensures forall i :: 0 <= i < |ids| ==> Parsed(ids[i]).value < Parsed(MaxPlusOne(ids)).value
    ensures MaxPlusOne(ids) !in ids
  {
    var m := MaxOf(ids).n;
    JsNumber.ParseIntOfIntToString(m + 1);
    forall i | 0 <= i < |ids|
      ensures ids[i] != MaxPlusOne(ids)
    {
      assert Parsed(ids[i]).value <= m;
    }
  }

  /** Adding the new id to a numeric, repeat-free list keeps it numeric and repeat-free. */
  lemma MaxPlusOneKeepsIdsDistinct(ids: seq<string>)
    requires ids != [] && AllNumeric(ids) && Lists.NoDuplicates(ids)
    ensures AllNumeric(ids + [MaxPlusOne(ids)])
    ensures Lists.NoDuplicates(ids + [MaxPlusOne(ids)])
  {
    MaxPlusOneFresh(ids);
    Lists.AppendFreshKeepsNoDuplicates(ids, MaxPlusOne(ids));
    var added := ids + [MaxPlusOne(ids)];
    forall i | 0 <= i < |added|
      ensures Parsed(added[i]).Some?
    {
      if i < |ids| {
        assert added[i] == ids[i];
      }
    }
  }

  /** Once an id fails to read as a number, every later new id is "NaN" and the list stays so. */
  lemma NotANumberSticks(ids: seq<string>)
    requires ids != [] && !AllNumeric(ids)
    ensures MaxPlusOne(ids) == "NaN"
    ensures !AllNumeric(ids + [MaxPlusOne(ids)])
  {
    var i :| 0 <= i < |ids| && Parsed(ids[i]).None?;
    assert (ids + ["NaN"])[i] == ids[i];
  }

  /** Minus infinity does not read back as a number: after the sign, `I` is no digit. */
  lemma NegInfinityNotNumeric(s: string)
    requires s == "-Infinity"
    ensures Parsed(s).None?
  {
    JsNumber.TrimStartKeeps(s);
    assert s[1..] == "Infinity";
    assert JsNumber.DigitValue('I') == 18;
  }

  /** From an empty list the first new id is "-Infinity", which is not numeric. */
  lemma FirstIdOfEmpty(ids: seq<string>)
    requires ids == []
    ensures MaxPlusOne(ids) == "-Infinity"
    ensures !AllNumeric(ids + [MaxPlusOne(ids)])
  {
    NegInfinityNotNumeric(MaxPlusOne(ids));
    assert (ids + [MaxPlusOne(ids)])[0] == MaxPlusOne(ids);
  }

  /** After a first id that is not numeric, the next two new ids are both "NaN". */
  lemma NotANumberTwice(a: string, b: string, c: string)
    requires Parsed(a).None?
    requires b == MaxPlusOne([a]) && c == MaxPlusOne([a, b])
    ensures b == "NaN" && c == "NaN"
  {
    assert !AllNumeric([a]) by { assert [a][0] == a; }
    NotANumberSticks([a]);
    assert [a] + [b] == [a, b];
    NotANumberSticks([a, b]);
  }

  /**
    Starting from an empty list, three creates choose the ids "-Infinity", "NaN" and
    "NaN": the third repeats the second.
  */
  lemma EmptyListIdsCollide(a: string, b: string, c: string)
    requires a == MaxPlusOne([]) && b == MaxPlusOne([a]) && c == MaxPlusOne([a, b])
    ensures a == "-Infinity" && b == "NaN" && c == "NaN"
    ensures !Lists.NoDuplicates([a, b, c])
  {
    NegInfinityNotNumeric(a);
    NotANumberTwice(a, b, c);
    assert [a, b, c][1] == [a, b, c][2];
  }

  /** The id rule applied three times from no ids, each new id appended. */
  lemma ThreeCreatesFromEmpty(i0: seq<string>, i1: seq<string>, i2: seq<string>, i3: seq<string>)
    requires i0 == []
    requires i1 == i0 + [MaxPlusOne(i0)]
    requires i2 == i1 + [MaxPlusOne(i1)]
    requires i3 == i2 + [MaxPlusOne(i2)]
    ensures i3 == ["-Infinity", "NaN", "NaN"] && !Lists.NoDuplicates(i3)
  {
    var a := MaxPlusOne(i0);
    var b := MaxPlusOne(i1);
    var c := MaxPlusOne(i2);
    assert i1 == [a];
    assert i2 == [a, b];
    EmptyListIdsCollide(a, b, c);
  }

  /** The id rule with the empty list starting the numbering at "1", as the domain list does. */
  function NextIdFixed(ids: seq<string>): (r: string)
    ensures ids != [] ==> r == MaxPlusOne(ids)
  {
    if ids == [] then JsNumber.IntToString(1) else MaxPlusOne(ids)
  }

  /** The fixed rule's first id is "1". */
  lemma NextIdFixedOfEmpty()
    ensures NextIdFixed([]) == "1"
  {
    assert JsNumber.IntToString(1) == "1";
  }

  /** With the empty case fixed, a numeric, repeat-free list stays so after any create. */
  lemma NextIdFixedKeepsIdsDistinct(ids: seq<string>)
    requires AllNumeric(ids) && Lists.NoDuplicates(ids)
    ensures NextIdFixed(ids) !in ids
    ensures AllNumeric(ids + [NextIdFixed(ids)])
    ensures Lists.NoDuplicates(ids + [NextIdFixed(ids)])
  {
    if ids == [] {
      JsNumber.ParseIntOfIntToString(1);
      assert (ids + [NextIdFixed(ids)])[0] == NextIdFixed(ids);
    } else {
      MaxPlusOneFresh(ids);
      MaxPlusOneKeepsIdsDistinct(ids);
    }
  }
}
