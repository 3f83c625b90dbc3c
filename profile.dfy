/**
 * Finding a package's entry in the output of `nix profile list`, as the
 * uninstall command and the rollback command do: the first line that mentions
 * `nixpkgs#<package>`, and the first whitespace-separated token of that line,
 * which is the entry's index.
 */
module Profile {
  import opened Wrappers
  import opened Strings

  /** The text a profile line must contain to be taken for `package`. */
  function Needle(package: string): string {
    "nixpkgs#" + package
  }

  /** Line `i` is the first of `lines` that contains `needle`. */
  ghost predicate IsFirstHit(lines: seq<string>, needle: string, i: int) {
    && 0 <= i < |lines|
    && Contains(lines[i], needle)
    && forall j :: 0 <= j < i ==> !Contains(lines[j], needle)
  }

  /**
   * A line that contains the needle has a first token, since "nixpkgs#" holds
   * no whitespace. So the rollback loop, which only stops when the token
   * exists, stops at the same line as the uninstall loop, which stops at the
   * first line that contains the needle.
   */
  lemma NeedleLineHasToken(line: string, package: string)
    requires Contains(line, Needle(package))
    ensures FirstToken(line).Some?
  {
    var k :| 0 <= k <= |line| - |Needle(package)| && StartsWith(line[k..], Needle(package));
    assert line[k] == line[k..][0] == Needle(package)[0] == 'n';
    assert !IsWhitespace(line[k]);
  }

  /**
   * The index search over the lines of `nix profile list`: `None` when no line
   * mentions the package, otherwise the first token of the first line that does.
   */
  method FindProfileIndex(lines: seq<string>, package: string) returns (index: Option<string>)
    ensures index.None? <==> forall i :: 0 <= i < |lines| ==> !Contains(lines[i], Needle(package))
    ensures index.Some? ==> exists i :: IsFirstHit(lines, Needle(package), i) && index == FirstToken(lines[i])
  {
    var needle := Needle(package);
    index := None;
    for i := 0 to |lines|
      invariant index.None?
      invariant forall j :: 0 <= j < i ==> !Contains(lines[j], needle)
    {
      if Contains(lines[i], needle) {
        index := FirstToken(lines[i]);
        NeedleLineHasToken(lines[i], package);
        assert IsFirstHit(lines, needle, i);
        break;
      }
    }
  }

  /**
   * The rollback variant of the search: it stops only at a line that both
   * contains the needle and has a first token, and it yields the index that
   * `nix profile remove` is then given. It finds the same entry as
   * `FindProfileIndex`, because such a line always has a token.
   */
  method RollbackIndex(lines: seq<string>, package: string) returns (index: Option<string>)
    ensures index.None? <==> forall i :: 0 <= i < |lines| ==> !Contains(lines[i], Needle(package))
    ensures index.Some? ==> exists i :: IsFirstHit(lines, Needle(package), i) && index == FirstToken(lines[i])
  {
    var needle := Needle(package);
    index := None;
    for i := 0 to |lines|
      invariant index.None?
      invariant forall j :: 0 <= j < i ==> !Contains(lines[j], needle)
    {
      if Contains(lines[i], needle) {
        var t := FirstToken(lines[i]);
        NeedleLineHasToken(lines[i], package);
        if t.Some? {
          index := t;
          assert IsFirstHit(lines, needle, i);
          break;
        }
      }
    }
  }

  /**
   * The match is a substring match: a line found for package `q` is also found
   * for every prefix `p` of `q`, so a shorter name can pick a longer name's entry.
   */
  lemma PrefixNameMatches(line: string, p: string, q: string)
    requires StartsWith(q, p) && Contains(line, Needle(q))
    ensures Contains(line, Needle(p))
  {
  }

  /**
   * The consequence for uninstalling: with `cowsay` listed before `cow`,
   * uninstalling `cow` picks `cowsay`'s index "3".
   */
  lemma ShorterNameTakesEarlierEntry()
    ensures IsFirstHit(["3  nixpkgs#cowsay-3.04", "4  nixpkgs#cow-1.0"], Needle("cow"), 0)
    ensures FirstToken("3  nixpkgs#cowsay-3.04") == Some("3")
  {
    var line := "3  nixpkgs#cowsay-3.04";
    assert StartsWith(line[3..], Needle("cow"));
    LeadingIndexToken(line);
  }

  /** A line that starts with one non-blank character and then a space has that character as its first token. */
  lemma LeadingIndexToken(line: string)
    requires |line| >= 2 && !IsWhitespace(line[0]) && line[1] == ' '
    ensures FirstToken(line) == Some([line[0]])
  {
    assert TrimStart(line) == line;
    assert IsWhitespace(line[1..][0]);
    assert TokenPrefix(line) == [line[0]] + TokenPrefix(line[1..]) == [line[0]];
  }
}
