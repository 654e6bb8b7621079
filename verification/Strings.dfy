/** The string operations of Python the daemon relies on: `str.split("/")`, `"/".join`,
    `str.rstrip("/")`. */
module Strings {
  /** `s.split("/")`: never empty. */
  function Split(s: string): (parts: seq<string>)
    ensures parts != []
  {
    if s == "" then [""]
    else if s[0] == '/' then [""] + Split(s[1..])
    else
      var rest := Split(s[1..]);
      [[s[0]] + rest[0]] + rest[1..]
  }

  /** `"/".join(parts)` */
  function Join(parts: seq<string>): string
    requires parts != []
  {
    if |parts| == 1 then parts[0] else parts[0] + "/" + Join(parts[1..])
  }

  /** A component of a path as `pathlib` keeps it. */
  predicate IsComponent(s: string) {
    s != "" && s != "." && '/' !in s
  }

  /** `s.rstrip("/")` */
  function RStrip(s: string): (r: string)
    ensures r <= s
    ensures r == "" || r[|r| - 1] != '/'
    ensures forall i :: |r| <= i < |s| ==> s[i] == '/'
  {
    if s != "" && s[|s| - 1] == '/' then RStrip(s[..|s| - 1]) else s
  }

  lemma {:induction false} SplitJoin(parts: seq<string>)
    requires parts != [] && forall i :: 0 <= i < |parts| ==> '/' !in parts[i]
    ensures Split(Join(parts)) == parts
  {
    if |parts| == 1 {
      SplitHead(parts[0], "");
      assert parts[0] + "" == parts[0];
    } else {
      SplitJoin(parts[1..]);
      SplitHead(parts[0], "/" + Join(parts[1..]));
      assert parts[0] + "/" + Join(parts[1..]) == parts[0] + ("/" + Join(parts[1..]));
      assert ("/" + Join(parts[1..]))[1..] == Join(parts[1..]);
      assert parts[0] + "" == parts[0] && Split("/" + Join(parts[1..])) == [""] + parts[1..];
    }
  }

  lemma {:induction false} SplitHead(part: string, rest: string)
    requires '/' !in part
    ensures Split(part + rest) == [part + Split(rest)[0]] + Split(rest)[1..]
  {
    if part == "" {
      assert part + rest == rest && part + Split(rest)[0] == Split(rest)[0];
    } else {
      SplitHead(part[1..], rest);
      assert (part + rest)[1..] == part[1..] + rest;
      assert [part[0]] + (part[1..] + Split(rest)[0]) == part + Split(rest)[0];
    }
  }
}
