/**
 * The two functions of Go's `strings` package that the route synchroniser
 * applies to a path label: `strings.ToLower` and `strings.Split(s, ",")`.
 * `Join` is the inverse of `Split` and only serves to characterise it.
 */
module GoStrings {

  predicate IsUpper(c: char) {
    'A' <= c <= 'Z'
  }

  /** Lower-case mapping of one character (ASCII letters only). */
  function LowerChar(c: char): char {
    if IsUpper(c) then (c as int + 32) as char else c
  }

  /** `strings.ToLower`: maps every character, keeps the length. */
  function ToLower(s: string): (r: string)
    ensures |r| == |s|
  {
    seq(|s|, i requires 0 <= i < |s| => LowerChar(s[i]))
  }

  /** Lower-casing leaves no upper-case letter, keeps every comma and changes only upper-case letters. */
  lemma ToLowerChars(s: string)
    ensures forall i :: 0 <= i < |s| ==> !IsUpper(ToLower(s)[i])
    ensures forall i :: 0 <= i < |s| ==> (ToLower(s)[i] == ',' <==> s[i] == ',')
    ensures forall i :: 0 <= i < |s| ==> (IsUpper(s[i]) || ToLower(s)[i] == s[i])
  {
  }

  lemma ToLowerIdempotent(s: string)
    ensures ToLower(ToLower(s)) == ToLower(s)
  {
  }

  /**
   * `strings.Split(s, ",")`: the segments between commas, empty ones
   * included, so that the empty string splits into one empty segment.
   */
  function Split(s: string): (r: seq<string>)
    ensures |r| >= 1
    decreases |s|
  {
    if s == [] then [""]
    else
      var rest := Split(s[1..]);
      if s[0] == ',' then [""] + rest
      else [[s[0]] + rest[0]] + rest[1..]
  }

  /** There is one segment more than there are commas, and no segment holds a comma. */
  lemma {:induction false} SplitSegments(s: string)
    ensures |Split(s)| == 1 + multiset(s)[',']
    ensures forall i :: 0 <= i < |Split(s)| ==> ',' !in Split(s)[i]
    decreases |s|
  {
    if s != [] {
      SplitSegments(s[1..]);
      assert s == [s[0]] + s[1..];
      var rest := Split(s[1..]);
      if s[0] != ',' {
        assert ',' !in rest[0];
        assert forall i :: 1 <= i < |Split(s)| ==> Split(s)[i] == rest[i];
      } else {
        assert forall i :: 1 <= i < |Split(s)| ==> Split(s)[i] == rest[i - 1];
      }
    }
  }

  /** `strings.Join(parts, ",")`, the inverse of `Split`. */
  function Join(parts: seq<string>): string
    requires |parts| >= 1
    decreases |parts|
  {
    if |parts| == 1 then parts[0] else parts[0] + "," + Join(parts[1..])
  }

  /** Gluing a prefix onto the first segment glues it onto the joined string. */
  lemma {:induction false} JoinPrefix(a: string, parts: seq<string>)
    requires |parts| >= 1
    ensures Join([a + parts[0]] + parts[1..]) == a + Join(parts)
  {
    var glued := [a + parts[0]] + parts[1..];
    if |parts| > 1 {
      assert glued[1..] == parts[1..];
      var tail := Join(parts[1..]);
      assert Join(glued) == (a + parts[0]) + "," + tail;
      assert Join(parts) == parts[0] + "," + tail;
      assert (a + parts[0]) + "," + tail == a + (parts[0] + "," + tail);
    }
  }

  /** Splitting loses nothing: joining the segments gives the label back. */
  lemma {:induction false} JoinSplit(s: string)
    ensures Join(Split(s)) == s
    decreases |s|
  {
    if s != [] {
      var rest := Split(s[1..]);
      JoinSplit(s[1..]);
      if s[0] == ',' {
        assert Split(s) == [""] + rest;
        assert ([""] + rest)[1..] == rest;
        assert s == "," + s[1..];
      } else {
        assert Split(s) == [[s[0]] + rest[0]] + rest[1..];
        JoinPrefix([s[0]], rest);
        assert s == [s[0]] + s[1..];
      }
    }
  }

  /** Splitting a comma-free prefix extends the first segment only. */
  lemma {:induction false} SplitPrefix(x: string, t: string)
    requires ',' !in x
    ensures Split(x + t) == [x + Split(t)[0]] + Split(t)[1..]
    decreases |x|
  {
    if x != [] {
      assert (x + t)[1..] == x[1..] + t;
      assert (x + t)[0] == x[0];
      assert x[0] in x;
      SplitPrefix(x[1..], t);
      assert [x[0]] + (x[1..] + Split(t)[0]) == x + Split(t)[0];
    } else {
      assert x + t == t;
      assert x + Split(t)[0] == Split(t)[0];
      assert Split(t) == [Split(t)[0]] + Split(t)[1..];
    }
  }

  /** Joining comma-free segments and splitting again gives the segments back. */
  lemma {:induction false} SplitJoin(parts: seq<string>)
    requires |parts| >= 1
    requires forall i :: 0 <= i < |parts| ==> ',' !in parts[i]
    ensures Split(Join(parts)) == parts
    decreases |parts|
  {
    if |parts| == 1 {
      SplitPrefix(parts[0], "");
      assert parts[0] + "" == parts[0];
    } else {
      var tail := Join(parts[1..]);
      SplitJoin(parts[1..]);
      assert parts[0] + "," + tail == parts[0] + ("," + tail);
      SplitPrefix(parts[0], "," + tail);
      assert ("," + tail)[1..] == tail;
      assert Split("," + tail) == [""] + Split(tail);
      assert parts[0] + "" == parts[0];
    }
  }
}
