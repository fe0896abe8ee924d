/** Normalising the path of a database file: doubled slashes go, then one leading "./". */
module Paths {
  import opened Sqlite

  predicate DoubleAt(s: string, i: int) {
    0 <= i < |s| - 1 && s[i] == '/' && s[i + 1] == '/'
  }

  ghost predicate NoDouble(s: string) {
    forall i :: !DoubleAt(s, i)
  }

  /** The leftmost "//". */
  function FindDouble(s: string): (r: Option<nat>)
    ensures r.Some? ==> DoubleAt(s, r.value) && forall i | 0 <= i < r.value :: !DoubleAt(s, i)
    ensures r.None? ==> NoDouble(s)
  {
    if |s| < 2 then None
    else if DoubleAt(s, 0) then Some(0)
    else
      var tail := FindDouble(s[1..]);
      assert forall i :: DoubleAt(s, i) && i > 0 ==> DoubleAt(s[1..], i - 1);
      match tail case None => None case Some(i) => Some(i + 1)
  }

  /** Every run of slashes becomes one slash. */
  function Collapse(s: string): string {
    if s == "" then ""
    else if DoubleAt(s, 0) then Collapse(s[1..])
    else [s[0]] + Collapse(s[1..])
  }

  function StripDot(s: string): string {
    if |s| >= 2 && s[..2] == "./" then s[2..] else s
  }

  function Normalize(s: string): string {
    StripDot(Collapse(s))
  }

  lemma {:induction false} CollapseStart(s: string)
    ensures s == "" <==> Collapse(s) == ""
    ensures s != "" ==> Collapse(s)[0] == s[0]
  {
    if DoubleAt(s, 0) { CollapseStart(s[1..]); }
  }

  lemma {:induction false} CollapseHasNoDouble(s: string)
    ensures NoDouble(Collapse(s))
  {
    if s != "" {
      CollapseHasNoDouble(s[1..]);
      CollapseStart(s[1..]);
      if !DoubleAt(s, 0) {
        var c := Collapse(s[1..]);
        assert forall i | i > 0 :: DoubleAt([s[0]] + c, i) ==> DoubleAt(c, i - 1);
      }
    }
  }

  /** Rewriting one "//", wherever it is, does not change what the string collapses to. */
  lemma {:induction false} RewriteKeepsCollapse(s: string, i: nat)
    requires DoubleAt(s, i)
    ensures Collapse(s[..i] + "/" + s[i + 2..]) == Collapse(s)
    decreases i
  {
    var t := s[..i] + "/" + s[i + 2..];
    if i == 0 {
      assert t == s[1..];
    } else {
      RewriteKeepsCollapse(s[1..], i - 1);
      assert t[1..] == s[1..][..i - 1] + "/" + s[1..][i - 1 + 2..];
      assert t[0] == s[0] && t[1] == s[1];
    }
  }

  lemma {:induction false} CollapsedAlready(s: string)
    requires NoDouble(s)
    ensures Collapse(s) == s
  {
    if s != "" {
      assert forall i :: DoubleAt(s[1..], i) ==> DoubleAt(s, i + 1);
      CollapsedAlready(s[1..]);
      assert !DoubleAt(s, 0);
    }
  }

  /** The loop rewrites the leftmost "//" until there is none; each round makes the string shorter. */
  method NormalizePath(dbPath: string) returns (result: string)
    ensures result == Normalize(dbPath)
  {
    result := dbPath;
    var pos := FindDouble(result);
    while pos.Some?
      invariant pos == FindDouble(result) && Collapse(result) == Collapse(dbPath)
      decreases |result|
    {
      RewriteKeepsCollapse(result, pos.value);
      result := result[..pos.value] + "/" + result[pos.value + 2..];
      pos := FindDouble(result);
    }
    CollapsedAlready(result);
    if |result| >= 2 && result[..2] == "./" {
      result := result[2..];
    }
  }

  // ---------------------------------------------------------------- what the path still names

  /** The names between slashes, empty ones left out. */
  function Components(s: string, name: string): seq<string>
    decreases |s|
  {
    if s == "" then (if name == "" then [] else [name])
    else if s[0] == '/' then (if name == "" then [] else [name]) + Components(s[1..], "")
    else Components(s[1..], name + [s[0]])
  }

  /** The names, each after a slash but the first. */
  function Joined(names: seq<string>): string {
    if names == [] then "" else if |names| == 1 then names[0] else names[0] + "/" + Joined(names[1..])
  }

  lemma {:induction false} NameThenRest(s: string, rest: string, name: string)
    requires '/' !in s
    ensures Components(s + rest, name) == Components(rest, name + s)
    decreases |s|
  {
    if s == "" {
      assert s + rest == rest && name + s == name;
    } else {
      assert s[0] in s && (s + rest)[1..] == s[1..] + rest && name + [s[0]] + s[1..] == name + s;
      NameThenRest(s[1..], rest, name + [s[0]]);
    }
  }

  /** The components of a path are the names it was put together from. */
  lemma {:induction false} ComponentsOfJoined(names: seq<string>)
    requires forall n | n in names :: n != "" && '/' !in n
    ensures Components(Joined(names), "") == names
    decreases |names|
  {
    if names != [] {
      var first, rest := names[0], names[1..];
      assert first in names && "" + first == first;
      if rest == [] {
        assert first + "" == first;
        NameThenRest(first, "", "");
      } else {
        ComponentsOfJoined(rest);
        assert first + "/" + Joined(rest) == first + ("/" + Joined(rest));
        NameThenRest(first, "/" + Joined(rest), "");
        assert ("/" + Joined(rest))[1..] == Joined(rest);
      }
    }
  }

  predicate Absolute(s: string) {
    s != "" && s[0] == '/'
  }

  lemma {:induction false} CollapseKeepsComponents(s: string, name: string)
    ensures Components(Collapse(s), name) == Components(s, name)
    decreases |s|
  {
    if s != "" {
      if DoubleAt(s, 0) {
        CollapseKeepsComponents(s[1..], name);
        assert s[1..][0] == '/';
      } else if s[0] == '/' {
        CollapseKeepsComponents(s[1..], "");
        assert Collapse(s)[1..] == Collapse(s[1..]);
      } else {
        CollapseKeepsComponents(s[1..], name + [s[0]]);
        assert Collapse(s)[1..] == Collapse(s[1..]);
      }
    }
  }

  /**
   The normalised path has no "//", is absolute exactly when the given one is, and names the same
   components, but for one leading "." that is dropped when it stands before a slash.
   */
  lemma NormalizeMeansTheSame(s: string)
    ensures NoDouble(Normalize(s))
    ensures Absolute(Normalize(s)) <==> Absolute(s)
    ensures Components(s, "") == (if Normalize(s) != Collapse(s) then ["."] else []) + Components(Normalize(s), "")
  {
    var c := Collapse(s);
    CollapseHasNoDouble(s);
    CollapseStart(s);
    CollapseKeepsComponents(s, "");
    if |c| >= 2 && c[..2] == "./" {
      assert c[0] == '.' && c[1] == '/';
      assert !DoubleAt(c, 1);
      assert forall i :: DoubleAt(c[2..], i) ==> DoubleAt(c, i + 2);
      var rest := c[1..];
      assert "" + [c[0]] == ".";
      assert rest[0] == '/' && rest[1..] == c[2..];
      assert Components(rest, ".") == ["."] + Components(c[2..], "");
    } else {
      assert [] + Components(c, "") == Components(c, "");
    }
  }

  /** A second pass changes nothing exactly when the first one leaves no leading "./". */
  lemma NormalizeTwice(s: string)
    ensures Normalize(Normalize(s)) == Normalize(s) <==> !(|Normalize(s)| >= 2 && Normalize(s)[..2] == "./")
  {
    NormalizeMeansTheSame(s);
    CollapsedAlready(Normalize(s));
  }
}
