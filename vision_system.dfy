/**
 * The scene classifier of the vision widget (`analyzeScene` in
 * src/components/VisionSystem.tsx): detections become issue strings through a
 * danger list, per-class counts and the number of faces. Only the class of a
 * detection and the number of faces matter here.
 */
module VisionSystem {
  import opened Wrappers
  import Text
  import Seqs

  const DangerousObjects: seq<string> := ["knife", "scissors", "fire"]

  // ---------------------------------------------------------------------------
  // The specification of the issue list
  // ---------------------------------------------------------------------------

  /** The danger issue of one detection, when its lower-cased class is on the danger list. */
  function DangerIssue(class': string): (r: Option<string>)
    ensures r.Some? <==> Text.ToLower(class') in DangerousObjects
  {
    if Text.ToLower(class') in DangerousObjects then Some("Detected potentially dangerous object: " + class') else None
  }

  /** The danger issues, one per dangerous detection, in detection order. */
  function DangerIssues(classes: seq<string>): seq<string> {
    Seqs.FilterMap(classes, DangerIssue)
  }

  /** How many detections have exactly this class. */
  function Count(classes: seq<string>, k: string): nat {
    multiset(classes)[k]
  }

  /** The distinct classes in order of first occurrence: the key order of the count object. */
  function Distinct(classes: seq<string>): (r: seq<string>)
    ensures forall k :: k in r <==> k in classes
    ensures |r| <= |classes|
    decreases |classes|
  {
    if |classes| == 0 then []
    else
      var d := Distinct(classes[..|classes| - 1]);
      var last := classes[|classes| - 1];
      assert classes == classes[..|classes| - 1] + [last];
      if last in d then d else d + [last]
  }

  /** The per-class counts the `reduce` builds. */
  function Counts(classes: seq<string>): map<string, nat> {
    map k | k in classes :: Count(classes, k)
  }

  function CountMessage(k: string, n: nat): string {
    "Unusual number of " + (k + ("s detected (" + (Text.NatToString(n) + ")")))
  }

  /** The count issue of one class, when it has more than three detections. */
  function CountIssue(counts: map<string, nat>, k: string): Option<string> {
    if k in counts && counts[k] > 3 then Some(CountMessage(k, counts[k])) else None
  }

  /** The count issues of the given keys, in key order. */
  function CountIssuesFor(keys: seq<string>, counts: map<string, nat>): seq<string> {
    Seqs.FilterMap(keys, k => CountIssue(counts, k))
  }

  /** The count issues, in key order. */
  function CountIssues(classes: seq<string>): seq<string> {
    CountIssuesFor(Distinct(classes), Counts(classes))
  }

  function FaceIssues(faces: nat): seq<string> {
    if faces > 1 then ["Multiple faces detected (" + Text.NatToString(faces) + ")"] else []
  }

  /** The issue list: danger issues, then count issues, then the face issue. */
  function Issues(classes: seq<string>, faces: nat): seq<string> {
    DangerIssues(classes) + CountIssues(classes) + FaceIssues(faces)
  }

  /** At most one danger and one count issue per detection, and the face issue always comes last. */
  lemma IssuesBounds(classes: seq<string>, faces: nat)
    ensures var r := Issues(classes, faces);
      && |r| <= 2 * |classes| + 1
      && (classes == [] ==> |r| <= 1)
      && (faces > 1 ==> |r| > 0 && r[|r| - 1] == "Multiple faces detected (" + Text.NatToString(faces) + ")")
      && (faces <= 1 && classes == [] ==> r == [])
  {
  }

  // ---------------------------------------------------------------------------
  // analyzeScene
  // ---------------------------------------------------------------------------

  /** `analyzeScene`: three passes pushing onto `issues`, the second building the counts and their key order. */
  method AnalyzeScene(classes: seq<string>, faces: nat) returns (issues: seq<string>)
    ensures issues == Issues(classes, faces)
  {
    issues := [];
    var i := 0;
    while i < |classes|
      invariant 0 <= i <= |classes|
      invariant issues == DangerIssues(classes[..i])
    {
      DangerStep(classes, i);
      if Text.ToLower(classes[i]) in DangerousObjects {
        issues := issues + ["Detected potentially dangerous object: " + classes[i]];
      }
      i := i + 1;
    }
    assert classes[..i] == classes;

    var counts, keys := CountClasses(classes);

    ghost var danger := issues;
    var j := 0;
    while j < |keys|
      invariant 0 <= j <= |keys|
      invariant issues == danger + CountIssuesFor(keys[..j], counts)
    {
      CountStep(keys, j, counts);
      if counts[keys[j]] > 3 {
        issues := issues + [CountMessage(keys[j], counts[keys[j]])];
      }
      j := j + 1;
    }
    assert keys[..j] == keys;

    if faces > 1 {
      issues := issues + ["Multiple faces detected (" + Text.NatToString(faces) + ")"];
    }
  }

  lemma DangerStep(classes: seq<string>, i: nat)
    requires i < |classes|
    ensures DangerIssues(classes[..i + 1]) == DangerIssues(classes[..i]) +
      if Text.ToLower(classes[i]) in DangerousObjects then ["Detected potentially dangerous object: " + classes[i]] else []
  {
    Seqs.FilterMapAppend(classes[..i], [classes[i]], DangerIssue);
    assert classes[..i + 1] == classes[..i] + [classes[i]];
  }

  lemma CountStep(keys: seq<string>, j: nat, counts: map<string, nat>)
    requires j < |keys|
    ensures CountIssuesFor(keys[..j + 1], counts) == CountIssuesFor(keys[..j], counts) +
      if keys[j] in counts && counts[keys[j]] > 3 then [CountMessage(keys[j], counts[keys[j]])] else []
  {
    Seqs.FilterMapAppend(keys[..j], [keys[j]], k => CountIssue(counts, k));
    assert keys[..j + 1] == keys[..j] + [keys[j]];
  }

  /** The `reduce` into the count object: the counts, and its keys in insertion order. */
  method CountClasses(classes: seq<string>) returns (counts: map<string, nat>, keys: seq<string>)
    ensures counts == Counts(classes)
    ensures keys == Distinct(classes)
    ensures forall k :: k in keys ==> k in counts
  {
    counts := map[];
    keys := [];
    var i := 0;
    while i < |classes|
      invariant 0 <= i <= |classes|
      invariant counts == Counts(classes[..i])
      invariant keys == Distinct(classes[..i])
    {
      CountsStep(classes[..i], classes[i]);
      assert classes[..i + 1] == classes[..i] + [classes[i]];
      assert (classes[..i] + [classes[i]])[..i] == classes[..i];
      counts := counts[classes[i] := (if classes[i] in counts then counts[classes[i]] else 0) + 1];
      if classes[i] !in keys {
        keys := keys + [classes[i]];
      }
      i := i + 1;
    }
    assert classes[..i] == classes;
  }

  /** One more detection adds one to its class's count and leaves the others alone. */
  lemma CountsStep(xs: seq<string>, c: string)
    ensures Counts(xs + [c]) == Counts(xs)[c := (if c in Counts(xs) then Counts(xs)[c] else 0) + 1]
  {
    var a, b := Counts(xs + [c]), Counts(xs)[c := (if c in Counts(xs) then Counts(xs)[c] else 0) + 1];
    assert multiset(xs + [c]) == multiset(xs) + multiset{c};
    forall k ensures k in a <==> k in b {
      assert k in xs + [c] <==> k in xs || k == c;
    }
    forall k | k in a ensures a[k] == b[k] {
      if k in xs { assert k in multiset(xs); } else { assert multiset(xs)[k] == 0; }
    }
  }

  // ---------------------------------------------------------------------------
  // Properties of the issue list
  // ---------------------------------------------------------------------------

  /** A danger issue names a detection whose lower-cased class is on the list, and every such detection gives one, in order. */
  lemma DangerIssuesCharacterised(classes: seq<string>, a: seq<string>, b: seq<string>, s: string)
    ensures s in DangerIssues(classes) <==>
      exists c :: c in classes && Text.ToLower(c) in DangerousObjects && s == "Detected potentially dangerous object: " + c
    ensures DangerIssues(a + b) == DangerIssues(a) + DangerIssues(b)
  {
    Seqs.FilterMapMembership(classes, DangerIssue, s);
    Seqs.FilterMapAppend(a, b, DangerIssue);
  }

  /** Each distinct class appears once in the key order. */
  lemma {:induction false} DistinctHasNoDuplicates(classes: seq<string>)
    ensures forall i, j :: 0 <= i < j < |Distinct(classes)| ==> Distinct(classes)[i] != Distinct(classes)[j]
    decreases |classes|
  {
    if |classes| > 0 {
      DistinctHasNoDuplicates(classes[..|classes| - 1]);
    }
  }

  /** A count issue is raised exactly for the classes with more than three detections, with their count. */
  lemma CountIssuesCharacterised(classes: seq<string>, k: string)
    ensures CountMessage(k, Count(classes, k)) in CountIssues(classes) <== (k in classes && Count(classes, k) > 3)
    ensures (exists n :: CountMessage(k, n) in CountIssues(classes)) ==> k in classes && Count(classes, k) > 3
  {
    var counts := Counts(classes);
    var f := k => CountIssue(counts, k);
    assert CountIssues(classes) == Seqs.FilterMap(Distinct(classes), f);
    if k in classes && Count(classes, k) > 3 {
      Seqs.FilterMapMembership(Distinct(classes), f, CountMessage(k, Count(classes, k)));
      assert f(k) == Some(CountMessage(k, Count(classes, k)));
    }
    if n :| CountMessage(k, n) in CountIssues(classes) {
      Seqs.FilterMapMembership(Distinct(classes), f, CountMessage(k, n));
      var k' :| k' in Distinct(classes) && f(k') == Some(CountMessage(k, n));
      CountMessageInjective(k', counts[k'], k, n);
    }
  }

  /** Different classes give different count messages. */
  lemma CountMessageInjective(k1: string, n1: nat, k2: string, n2: nat)
    requires CountMessage(k1, n1) == CountMessage(k2, n2)
    ensures k1 == k2
  {
    var p := "Unusual number of ";
    var s1, s2 := Text.NatToString(n1), Text.NatToString(n2);
    var t1, t2 := "s detected (" + (s1 + ")"), "s detected (" + (s2 + ")");
    var w1, w2 := k1 + t1, k2 + t2;
    assert CountMessage(k1, n1) == p + w1;
    assert CountMessage(k2, n2) == p + w2;
    assert w1 == (p + w1)[|p|..] == (p + w2)[|p|..] == w2;
    SuffixAfterClass(k1, t1, k2, t2, s1, s2);
  }

  /** Splitting `k + "s detected (" + digits + ")"` is unique. */
  lemma SuffixAfterClass(k1: string, t1: string, k2: string, t2: string, s1: string, s2: string)
    requires Text.AllDigits(s1) && Text.AllDigits(s2)
    requires t1 == "s detected (" + (s1 + ")") && t2 == "s detected (" + (s2 + ")")
    requires k1 + t1 == k2 + t2
    ensures k1 == k2
  {
    var w := k1 + t1;
    NoParenAfter(k1, s1);
    NoParenAfter(k2, s2);
    assert w[|k1| + 11] == '(' by { assert w[|k1| + 11] == t1[11]; }
    assert w[|k2| + 11] == '(' by { assert w[|k2| + 11] == t2[11]; }
    assert |k1| == |k2|;
    assert k1 == w[..|k1|] == k2;
  }

  /** After the class, the only '(' is the one that opens the count. */
  lemma NoParenAfter(k: string, s: string)
    requires Text.AllDigits(s)
    ensures forall i :: |k| + 11 < i < |k + ("s detected (" + (s + ")"))| ==> (k + ("s detected (" + (s + ")")))[i] != '('
  {
    var w := k + ("s detected (" + (s + ")"));
    forall i | |k| + 11 < i < |w| ensures w[i] != '(' {
      if i < |w| - 1 {
        assert w[i] == s[i - |k| - 12];
      }
    }
  }

  /** The face issue is raised exactly when there is more than one face, and comes last. */
  lemma FaceIssueLast(classes: seq<string>, faces: nat)
    ensures faces > 1 <==> |Issues(classes, faces)| > |DangerIssues(classes) + CountIssues(classes)|
    ensures faces > 1 ==>
      Issues(classes, faces)[|Issues(classes, faces)| - 1] == "Multiple faces detected (" + Text.NatToString(faces) + ")"
  {
  }

  /** A quiet scene: no detections and at most one face give no issue. */
  lemma QuietScene(faces: nat)
    requires faces <= 1
    ensures Issues([], faces) == []
  {
  }
}
