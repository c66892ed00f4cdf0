/**
  The action-verb vocabulary and `ensureStrongActionVerb`: an action that
  does not open with a vocabulary verb gets one prepended from the
  requested category.
*/
module ActionVerbs {
  import opened Text

  /** The keys of the `actionVerbs` table, in insertion order. */
  datatype Category = Leadership | Analysis | Creation | Improvement | Collaboration

  function Verbs(c: Category): seq<string> {
    match c
    case Leadership => ["Led", "Directed", "Managed", "Supervised", "Coordinated", "Mentored", "Guided"]
    case Analysis => ["Analyzed", "Evaluated", "Assessed", "Investigated", "Researched", "Examined"]
    case Creation => ["Developed", "Designed", "Built", "Created", "Implemented", "Established", "Launched"]
    case Improvement => ["Optimized", "Enhanced", "Improved", "Streamlined", "Increased", "Reduced", "Accelerated"]
    case Collaboration => ["Collaborated", "Partnered", "Facilitated", "Coordinated", "Contributed", "Supported"]
  }

  /** `this.actionVerbs[category] || this.actionVerbs.creation`. */
  function CategoryNamed(name: string): Category {
    match name
    case "leadership" => Leadership
    case "analysis" => Analysis
    case "creation" => Creation
    case "improvement" => Improvement
    case "collaboration" => Collaboration
    case _ => Creation
  }

  /** `Object.values(this.actionVerbs).flat()`. */
  function PooledVerbs(): seq<string> {
    Verbs(Leadership) + Verbs(Analysis) + Verbs(Creation) + Verbs(Improvement) + Verbs(Collaboration)
  }

  lemma VerbsArePooled(c: Category)
    ensures forall v :: v in Verbs(c) ==> v in PooledVerbs()
  {
  }

  /** A list of single non-empty words. */
  predicate SingleWords(vs: seq<string>) {
    forall v :: v in vs ==> v != [] && ' ' !in v
  }

  /** Every vocabulary verb is a single non-empty word. */
  lemma VerbsHaveNoSpace(c: Category)
    ensures SingleWords(Verbs(c))
  {
    match c {
      case Leadership => LeadershipWords();
      case Analysis => AnalysisWords();
      case Creation => CreationWords();
      case Improvement => ImprovementWords();
      case Collaboration => CollaborationWords();
    }
  }

  lemma LeadershipWords() ensures SingleWords(Verbs(Leadership)) {}
  lemma AnalysisWords() ensures SingleWords(Verbs(Analysis)) {}
  lemma CreationWords() ensures SingleWords(Verbs(Creation)) {}
  lemma ImprovementWords() ensures SingleWords(Verbs(Improvement)) {}
  lemma CollaborationWords() ensures SingleWords(Verbs(Collaboration)) {}

  predicate IsNotPlainSpace(c: char) {
    c != ' '
  }

  /** `action.split(' ')[0]`: everything before the first plain space. */
  function FirstWord(s: string): (w: string)
    ensures ' ' !in w
    ensures |w| <= |s| && w == s[..|w|]
    ensures |w| < |s| ==> s[|w|] == ' '
  {
    s[..Span(s, IsNotPlainSpace)]
  }

  /** `w`, lowercased, is a verb of some category. */
  ghost predicate IsStrongVerb(w: string) {
    exists v :: v in PooledVerbs() && Lower(v) == Lower(w)
  }

  /** `verbs.some(verb => verb.toLowerCase() === lowered)`, tried in order. */
  function SomeVerbIs(verbs: seq<string>, lowered: string): (b: bool)
    ensures b <==> exists v :: v in verbs && Lower(v) == lowered
    decreases |verbs|
  {
    if verbs == [] then false
    else Lower(verbs[0]) == lowered || SomeVerbIs(verbs[1..], lowered)
  }

  /** `hasStrongVerb` of the source: the first word is a vocabulary verb. */
  function StartsWithStrongVerb(action: string): (b: bool)
    ensures b <==> IsStrongVerb(FirstWord(action))
  {
    SomeVerbIs(PooledVerbs(), Lower(FirstWord(action)))
  }

  /**
    `ensureStrongActionVerb(action, category)`, with `pick` standing for
    `Math.floor(Math.random() * verbs.length)`. An empty action and one
    that already opens with a verb of any category come back unchanged;
    any other gets a verb of the requested category (of `creation` for an
    unknown name) and a space prepended, so every non-empty result opens
    with a vocabulary verb.
  */
  function EnsureStrongActionVerb(action: string, category: string, pick: nat): (r: string)
    requires pick < |Verbs(CategoryNamed(category))|
    ensures action == [] || StartsWithStrongVerb(action) ==> r == action
    ensures action != [] && !StartsWithStrongVerb(action) ==>
      exists v :: v in Verbs(CategoryNamed(category)) && r == v + " " + action
    ensures action != [] ==> StartsWithStrongVerb(r)
  {
    if action == [] then action
    else if StartsWithStrongVerb(action) then action
    else
      var v := Verbs(CategoryNamed(category))[pick];
      var r := v + " " + action;
      PrependedVerbLeads(v, action, CategoryNamed(category));
      r
  }

  /** The first word of a space-free word followed by a space and anything is that word. */
  lemma FirstWordOf(w: string, rest: string)
    requires ' ' !in w
    requires rest != [] && rest[0] == ' '
    ensures FirstWord(w + rest) == w
  {
    SpanOfRun(w, rest, IsNotPlainSpace);
    assert (w + rest)[..|w|] == w;
  }

  lemma PrependedVerbLeads(v: string, action: string, c: Category)
    requires v in Verbs(c)
    ensures StartsWithStrongVerb(v + " " + action)
  {
    VerbsHaveNoSpace(c);
    VerbsArePooled(c);
    assert v + " " + action == v + (" " + action);
    FirstWordOf(v, " " + action);
  }

  /** Ensuring a strong verb twice is the same as once, whatever the second category and pick. */
  lemma EnsureStrongActionVerbIdempotent(action: string, c1: string, p1: nat, c2: string, p2: nat)
    requires p1 < |Verbs(CategoryNamed(c1))| && p2 < |Verbs(CategoryNamed(c2))|
    ensures EnsureStrongActionVerb(EnsureStrongActionVerb(action, c1, p1), c2, p2)
         == EnsureStrongActionVerb(action, c1, p1)
  {
  }

  /** "built a dashboard" already opens with a creation verb and is kept. */
  lemma BuiltIsKept(pick: nat)
    requires pick < |Verbs(Creation)|
    ensures EnsureStrongActionVerb("built a dashboard", "creation", pick) == "built a dashboard"
  {
    BuiltLeads();
  }

  lemma BuiltLeads()
    ensures StartsWithStrongVerb("built a dashboard")
  {
    assert "built a dashboard" == "built" + " a dashboard";
    FirstWordOf("built", " a dashboard");
    BuiltIsStrong();
  }

  lemma BuiltIsStrong()
    ensures IsStrongVerb("built")
  {
    assert Lower("Built") == Lower("built") by {
      assert LowerChar('B') == 'b';
    }
    assert "Built" in PooledVerbs() by {
      assert Verbs(Creation)[2] == "Built";
    }
  }
}
