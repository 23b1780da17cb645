/** Names of the three files of a publication, as derived from the name of its
    editable workflow, and the exact condition under which two publications
    share a file. */
module SourcePaths {

  datatype Part = Workflow | Api | Manifest

  predicate StartsWith(s: string, prefix: string) {
    |prefix| <= |s| && s[..|prefix|] == prefix
  }

  predicate EndsWith(s: string, suffix: string) {
    |suffix| <= |s| && s[|s| - |suffix|..] == suffix
  }

  /** The '/'-separated components of a name. */
  function Components(s: string): (parts: seq<string>)
    ensures |parts| > 0
  {
    if s == "" then [""]
    else
      var rest := Components(s[1..]);
      if s[0] == '/' then [""] + rest else [[s[0]] + rest[0]] + rest[1..]
  }

  /** A relative name that path normalisation leaves alone and that never climbs. */
  predicate Normalized(s: string) {
    '\\' !in s && forall part :: part in Components(s) ==> part != "" && part != "." && part != ".."
  }

  function Utf8Length(s: string): nat {
    if s == "" then 0
    else
      (if s[0] < '\U{80}' then 1 else if s[0] < '\U{800}' then 2 else if s[0] < '\U{10000}' then 3 else 4)
      + Utf8Length(s[1..])
  }

  predicate SafeSource(s: string) {
    && Utf8Length(s) <= 2048
    && StartsWith(s, "workflows/")
    && Normalized(s)
    && EndsWith(s, ".json")
    && !EndsWith(s, ".api.json")
    && !EndsWith(s, ".interface.json")
  }

  function Stem(source: string): string
    requires EndsWith(source, ".json")
  {
    if EndsWith(source, ".workflow.json") then source[..|source| - 14] else source[..|source| - 5]
  }

  function PartPath(source: string, part: Part): string
    requires EndsWith(source, ".json")
  {
    match part
    case Workflow => source
    case Api => Stem(source) + ".api.json"
    case Manifest => Stem(source) + ".interface.json"
  }

  lemma {:induction false} SuffixOfConcat(stem: string, suffix: string)
    ensures EndsWith(stem + suffix, suffix)
    ensures (stem + suffix)[..|stem|] == stem
  {
  }

  /** Two suffixes neither of which ends the other never end the same name. */
  lemma {:induction false} SuffixesClash(s: string)
    ensures !(EndsWith(s, ".api.json") && EndsWith(s, ".interface.json"))
  {
    if EndsWith(s, ".interface.json") {
      assert s[|s| - 15..][6] == 'f';
    }
  }

  /** Two files of two publications are the same file only when they play the
      same part, and then either the publications are the same or the file is
      not the editable workflow and the two workflows differ only by the
      optional ".workflow" infix. */
  lemma {:induction false} SharedPart(s: string, p: Part, t: string, q: Part)
    requires SafeSource(s) && SafeSource(t)
    requires PartPath(s, p) == PartPath(t, q)
    ensures p == q
    ensures if p.Workflow? then s == t else Stem(s) == Stem(t)
  {
    SuffixOfConcat(Stem(s), ".api.json");
    SuffixOfConcat(Stem(s), ".interface.json");
    SuffixOfConcat(Stem(t), ".api.json");
    SuffixOfConcat(Stem(t), ".interface.json");
    SuffixesClash(PartPath(s, p));
    if p == q && !p.Workflow? {
      assert |Stem(s)| == |Stem(t)|;
      assert PartPath(s, p)[..|Stem(s)|] == Stem(s);
      assert PartPath(t, q)[..|Stem(t)|] == Stem(t);
    }
  }

  /** Distinct publications therefore clash exactly when their stems agree. */
  lemma {:induction false} PublicationsClash(s: string, t: string)
    requires SafeSource(s) && SafeSource(t) && s != t
    ensures (exists p, q :: PartPath(s, p) == PartPath(t, q)) <==> Stem(s) == Stem(t)
  {
    forall p, q | PartPath(s, p) == PartPath(t, q) ensures Stem(s) == Stem(t) {
      SharedPart(s, p, t, q);
    }
    if Stem(s) == Stem(t) {
      assert PartPath(s, Manifest) == PartPath(t, Manifest);
    }
  }

  /** The names that belong to a stem, with and without the infix. */
  lemma {:induction false} PathsAre(stem: string)
    ensures EndsWith(stem + ".workflow.json", ".json") && EndsWith(stem + ".json", ".json")
    ensures PartPath(stem + ".workflow.json", Api) == stem + ".api.json"
            && PartPath(stem + ".workflow.json", Manifest) == stem + ".interface.json"
    ensures !EndsWith(stem, ".workflow") ==>
              PartPath(stem + ".json", Api) == stem + ".api.json"
                && PartPath(stem + ".json", Manifest) == stem + ".interface.json"
    ensures PartPath(stem + ".json", Workflow) == stem + ".json"
  {
    var long, short := stem + ".workflow.json", stem + ".json";
    assert long[|stem|..] == ".workflow.json" && long[|long| - 5..] == ".json" && long[..|long| - 14] == stem;
    assert short[|stem|..] == ".json" && short[..|short| - 5] == stem;
    if EndsWith(short, ".workflow.json") {
      assert short[|short| - 14..][..9] == ".workflow";
      assert stem[|stem| - 9..] == short[|short| - 14..|short| - 5];
    }
  }
}
