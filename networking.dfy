/**
 * The post-processing of `GetNearbyNetworks` (Overkill.Services/Services/NetworkingService.cs):
 * the exit code and the two output streams of `iw dev wlan1 scan` become the list of nearby
 * network names. The process call itself is not part of this model; its results are inputs.
 */
module Networking {
  import opened Wrappers
  import opened Strings

  /** `Environment.NewLine` on the Linux host. */
  const NewLine: string := "\n"

  /** The marker of a scan line that names a network. */
  const Marker: string := "SSID:"

  /** The prefix of the exception message for a failed scan. */
  const FailurePrefix: string := "iw command failed in GetNearbyNetworks: "

  /** `line.Split("SSID:")[1]`: the text after the first marker, up to the next one or the end. */
  function NameOf(line: string): (r: string)
    requires Contains(line, Marker)
    ensures var rest := line[IndexOf(line, Marker).value + |Marker|..];
      && !Contains(r, Marker)
      && r <= rest
      && (|r| == |rest| || OccursAt(rest, Marker, |r|))
  {
    SecondPiece(line, Marker);
    FirstPiece(line[IndexOf(line, Marker).value + |Marker|..], Marker);
    Split(line, Marker)[1]
  }

  /** A name short enough to be kept (NetworkingService.cs:60). */
  predicate Short(name: string) {
    |name| < 20
  }

  /** The line yields a name that is kept. */
  predicate Contributes(line: string, name: string) {
    Contains(line, Marker) && NameOf(line) == name && Short(name)
  }

  /** The `Where`/`Select`/`Where` part of the pipeline (NetworkingService.cs:57-60), in line order. */
  function Candidates(lines: seq<string>): (r: seq<string>)
    ensures forall name :: name in r <==> exists k :: 0 <= k < |lines| && Contributes(lines[k], name)
    ensures forall k :: 0 <= k < |r| ==> Short(r[k])
    ensures |r| <= |lines|
  {
    if lines == [] then []
    else
      var rest := Candidates(lines[1..]);
      CandidatesCons(lines, rest);
      if Contains(lines[0], Marker) && Short(NameOf(lines[0])) then [NameOf(lines[0])] + rest else rest
  }

  /** The step of `Candidates`: the first line's name, if it contributes, before those of the other lines. */
  lemma CandidatesCons(lines: seq<string>, rest: seq<string>)
    requires |lines| > 0
    requires forall name :: name in rest <==> exists k :: 0 <= k < |lines| - 1 && Contributes(lines[1..][k], name)
    ensures forall name :: name in rest <==> exists k :: 1 <= k < |lines| && Contributes(lines[k], name)
  {
    forall name | name in rest ensures exists k :: 1 <= k < |lines| && Contributes(lines[k], name) {
      var k :| 0 <= k < |lines| - 1 && Contributes(lines[1..][k], name);
      assert lines[k + 1] == lines[1..][k];
    }
    forall name | exists k :: 1 <= k < |lines| && Contributes(lines[k], name) ensures name in rest {
      var k :| 1 <= k < |lines| && Contributes(lines[k], name);
      assert lines[1..][k - 1] == lines[k];
    }
  }

  /** `Distinct()`: the first occurrence of each element, in order; `seen` are the elements already passed. */
  function DistinctFrom(xs: seq<string>, seen: set<string>): (r: seq<string>)
    ensures forall x :: x in r <==> x in xs && x !in seen
    ensures forall i, j :: 0 <= i < j < |r| ==> r[i] != r[j]
  {
    if xs == [] then []
    else if xs[0] in seen then DistinctFrom(xs[1..], seen)
    else [xs[0]] + DistinctFrom(xs[1..], seen + {xs[0]})
  }

  function Distinct(xs: seq<string>): (r: seq<string>)
    ensures forall x :: x in r <==> x in xs
    ensures forall i, j :: 0 <= i < j < |r| ==> r[i] != r[j]
  {
    DistinctFrom(xs, {})
  }

  /**
   * A reference definition of the first occurrences, built from the back: the last element
   * is kept exactly when it does not occur earlier.
   */
  function FirstOccurrences(xs: seq<string>): seq<string> {
    if xs == [] then []
    else
      var init := xs[..|xs| - 1];
      FirstOccurrences(init) + (if xs[|xs| - 1] in init then [] else [xs[|xs| - 1]])
  }

  /** Passing one more element at the end of the input adds it at the end of the output, unless already passed. */
  lemma {:induction false} DistinctFromSnoc(xs: seq<string>, seen: set<string>, x: string)
    ensures DistinctFrom(xs + [x], seen) ==
      DistinctFrom(xs, seen) + (if x in xs || x in seen then [] else [x])
  {
    if xs == [] {
      assert [x][1..] == [];
    } else {
      assert (xs + [x])[1..] == xs[1..] + [x];
      if xs[0] in seen {
        DistinctFromSnoc(xs[1..], seen, x);
      } else {
        DistinctFromSnoc(xs[1..], seen + {xs[0]}, x);
      }
      assert x in xs <==> x == xs[0] || x in xs[1..];
    }
  }

  /** `Distinct` keeps exactly the first occurrences, in their order. */
  lemma {:induction false} DistinctKeepsFirstOccurrences(xs: seq<string>)
    ensures Distinct(xs) == FirstOccurrences(xs)
    decreases |xs|
  {
    if xs != [] {
      var init := xs[..|xs| - 1];
      assert xs == init + [xs[|xs| - 1]];
      DistinctFromSnoc(init, {}, xs[|xs| - 1]);
      DistinctKeepsFirstOccurrences(init);
    }
  }

  /** The names the scan lines yield (NetworkingService.cs:57-61): every kept name once. */
  function NetworkNames(lines: seq<string>): (r: seq<string>)
    ensures forall name :: name in r <==> exists k :: 0 <= k < |lines| && Contributes(lines[k], name)
    ensures forall i, j :: 0 <= i < j < |r| ==> r[i] != r[j]
  {
    Distinct(Candidates(lines))
  }

  /** `GetNearbyNetworks()` (NetworkingService.cs:48-65) on the outcome of the scan command. */
  function NearbyNetworks(exitCode: int, output: string, errorOutput: string): (r: Result<seq<string>, string>)
    ensures exitCode != 0 ==> r == Failure(FailurePrefix + errorOutput)
    ensures exitCode == 0 ==> r == Success(NetworkNames(Split(output, NewLine)))
  {
    if exitCode != 0 then Failure(FailurePrefix + errorOutput)
    else
      var lines := Split(output, NewLine);
      Success(NetworkNames(lines))
  }

  /** The names come out in the order of their first contributing lines. */
  lemma NamesInScanOrder(lines: seq<string>)
    ensures NetworkNames(lines) == FirstOccurrences(Candidates(lines))
  {
    DistinctKeepsFirstOccurrences(Candidates(lines));
  }

  /** A line whose network name is 20 characters or longer contributes nothing. */
  lemma LongNamesDropped(lines: seq<string>, line: string)
    requires Contains(line, Marker) && !Short(NameOf(line))
    ensures Candidates([line] + lines) == Candidates(lines)
  {
    assert ([line] + lines)[1..] == lines;
  }

  /** A line without the marker contributes nothing. */
  lemma UnmarkedLinesIgnored(lines: seq<string>, line: string)
    requires !Contains(line, Marker)
    ensures Candidates([line] + lines) == Candidates(lines)
  {
    assert ([line] + lines)[1..] == lines;
  }
}
