/**
  `generateXYZBullet`: pronoun removal, phrase conversion, quantification
  suggestion and strong-verb enforcement, applied in that order.

  `Math.random()` is modelled as a stream `rng` of raw draws; the k-th call
  reads `rng(k)` and `Math.floor(Math.random() * n)` becomes `rng(k) % n`.
  Every operation that may draw takes the index of the next unread draw and
  returns it advanced past the draws it used.
*/
module Bullet {
  import opened Text
  import opened Pronouns
  import opened Phrase
  import opened Quantification
  import opened ActionVerbs
  import opened Profile

  type Rng = nat -> nat

  /** A value together with the index of the next unread draw. */
  datatype Drawn<T> = Drawn(value: T, next: nat)

  /** `Math.floor(Math.random() * n)` on the k-th draw. */
  function Draw(rng: Rng, k: nat, n: nat): (i: nat)
    requires n > 0
    ensures i < n
  {
    rng(k) % n
  }

  /** The `options` argument with the source's defaults filled in. */
  datatype BulletOptions = BulletOptions(removePronouns: bool, suggestQuantification: bool, actionVerbCategory: string)

  function DefaultOptions(): BulletOptions {
    BulletOptions(true, true, "creation")
  }

  /** `{X, Y, Z, formatted}`. */
  datatype GeneratedBullet = GeneratedBullet(x: string, y: string, z: string, formatted: string)

  /** An action or result after the pronoun and phrase steps. */
  function Processed(text: string, removePronouns: bool): string {
    ConvertToPhrase(if removePronouns then RemovePersonalPronouns(text) else text)
  }

  /**
    The result clause: when suggestions are on and `p` carries no
    quantification, one draw picks an impact phrase to append.
  */
  function ResultClause(p: string, suggest: bool, rng: Rng, k: nat): (d: Drawn<string>)
    ensures suggest && !HasQuantification(p) ==>
      && (exists i :: 0 <= i < |Suggestions| && d.value == p + ", " + Suggestions[i])
      && d.next == k + 1
    ensures !(suggest && !HasQuantification(p)) ==> d.value == p && d.next == k
  {
    if suggest && !HasQuantification(p) then Drawn(SuggestQuantification(p, Draw(rng, k, |Suggestions|)), k + 1)
    else Drawn(p, k)
  }

  /** The action clause: a non-empty action without a leading vocabulary verb draws one. */
  function ActionClause(a: string, category: string, rng: Rng, k: nat): (d: Drawn<string>)
    ensures a == [] || StartsWithStrongVerb(a) ==> d.value == a && d.next == k
    ensures a != [] && !StartsWithStrongVerb(a) ==>
      && (exists v :: v in Verbs(CategoryNamed(category)) && d.value == v + " " + a)
      && d.next == k + 1
    ensures a != [] ==> StartsWithStrongVerb(d.value)
  {
    var y := EnsureStrongActionVerb(a, category, Draw(rng, k, |Verbs(CategoryNamed(category))|));
    Drawn(y, if a == [] || StartsWithStrongVerb(a) then k else k + 1)
  }

  /**
    `generateXYZBullet(situation, action, result, options)`. The draw for
    the impact phrase, when one is appended, comes before the draw for the
    verb, when one is prepended.
  */
  function GenerateXYZBullet(situation: string, action: string, result: string, opts: BulletOptions, rng: Rng, k: nat)
    : (d: Drawn<GeneratedBullet>)
    ensures d.value.formatted == d.value.y + " " + d.value.z
    ensures d.value.x == ConvertToPhrase(situation)
    ensures var p := Processed(result, opts.removePronouns);
      if opts.suggestQuantification && !HasQuantification(p)
      then exists i :: 0 <= i < |Suggestions| && d.value.z == p + ", " + Suggestions[i]
      else d.value.z == p
    ensures var a := Processed(action, opts.removePronouns);
      && (a == [] ==> d.value.y == [])
      && (StartsWithStrongVerb(a) ==> d.value.y == a)
      && (a != [] && !StartsWithStrongVerb(a) ==>
            exists v :: v in Verbs(CategoryNamed(opts.actionVerbCategory)) && d.value.y == v + " " + a)
      && (a != [] ==> StartsWithStrongVerb(d.value.y))
    ensures k <= d.next <= k + 2
  {
    var z := ResultClause(Processed(result, opts.removePronouns), opts.suggestQuantification, rng, k);
    var y := ActionClause(Processed(action, opts.removePronouns), opts.actionVerbCategory, rng, z.next);
    Drawn(GeneratedBullet(ConvertToPhrase(situation), y.value, z.value, y.value + " " + z.value), y.next)
  }

  /**
    A result is checked for quantification only after phrase conversion has
    lowercased every character but the first, and `/\d+[KMB]/` is
    case-sensitive, so the magnitude pattern never matches a converted
    phrase: a "10M" in a result is matched as "10m".
  */
  lemma MagnitudeNeverMatchesPhrase(text: string, i: nat)
    ensures !MatchesAt(MagnitudeSuffix, ConvertToPhrase(text), i)
  {
    var p := ConvertToPhrase(text);
    if MatchesAt(MagnitudeSuffix, p, i) {
      MagnitudeNeedsUpperCase(p, i);
    }
  }

  /** The magnitude pattern needs an upper-case letter after the digit. */
  lemma MagnitudeNeedsUpperCase(p: string, i: nat)
    requires MatchesAt(MagnitudeSuffix, p, i)
    ensures i + 1 < |p| && IsUpperAscii(p[i + 1])
  {
    var c := p[i + 1];
    assert c in "KMB";
    assert c == 'K' || c == 'M' || c == 'B';
  }

  /**
    `items.map(step)` where each step may draw: the steps run in order and
    each starts at the draw index the previous one stopped at.
  */
  function MapDrawing<A, B>(items: seq<A>, step: (A, nat) -> Drawn<B>, k: nat): (d: Drawn<seq<B>>)
    ensures |d.value| == |items|
    decreases |items|
  {
    if items == [] then Drawn([], k)
    else
      var first := step(items[0], k);
      var rest := MapDrawing(items[1..], step, first.next);
      Drawn([first.value] + rest.value, rest.next)
  }

  /** The draw index at which `MapDrawing` runs the step for item `i`. */
  function StepStart<A, B>(items: seq<A>, step: (A, nat) -> Drawn<B>, k: nat, i: nat): nat
    requires i < |items|
    decreases i
  {
    if i == 0 then k else StepStart(items[1..], step, step(items[0], k).next, i - 1)
  }

  /** Each mapped element is what `step` makes of the corresponding item at its own draw index. */
  lemma {:induction false} MapDrawingElements<A, B>(items: seq<A>, step: (A, nat) -> Drawn<B>, k: nat)
    ensures forall i :: 0 <= i < |items| ==>
      MapDrawing(items, step, k).value[i] == step(items[i], StepStart(items, step, k, i)).value
    decreases |items|
  {
    if items != [] {
      var first := step(items[0], k);
      var rest := MapDrawing(items[1..], step, first.next);
      MapDrawingElements(items[1..], step, first.next);
      var d := MapDrawing(items, step, k);
      assert d.value == [first.value] + rest.value;
      forall i | 1 <= i < |items|
        ensures d.value[i] == step(items[i], StepStart(items, step, k, i)).value
      {
        assert d.value[i] == rest.value[i - 1];
        assert items[i] == items[1..][i - 1];
      }
    }
  }

  /** One achievement through `generateXYZBullet` with the default options, starting at draw `j`. */
  function AchievementStep(rng: Rng): (step: (Achievement, nat) -> Drawn<GeneratedBullet>) {
    (a: Achievement, j: nat) => GenerateXYZBullet(a.x, a.y, a.z, DefaultOptions(), rng, j)
  }

  /** `b` is what `generateXYZBullet` makes of achievement `a`, with the default options, at some draw index. */
  ghost predicate BulletOf(a: Achievement, rng: Rng, b: GeneratedBullet) {
    exists j: nat :: b == GenerateXYZBullet(a.x, a.y, a.z, DefaultOptions(), rng, j).value
  }

  /**
    `achievements.map(a => generateXYZBullet(a.X, a.Y, a.Z))`: bullet `i` is
    achievement `i` formatted, the first one at draw `k`.
  */
  function FormatAchievements(achievements: seq<Achievement>, rng: Rng, k: nat)
    : (d: Drawn<seq<GeneratedBullet>>)
    ensures |d.value| == |achievements|
    ensures forall i :: 0 <= i < |achievements| ==> BulletOf(achievements[i], rng, d.value[i])
    ensures achievements != [] ==>
      d.value[0] == GenerateXYZBullet(achievements[0].x, achievements[0].y, achievements[0].z, DefaultOptions(), rng, k).value
  {
    var d := MapDrawing(achievements, AchievementStep(rng), k);
    FormattedBullets(achievements, rng, k);
    d
  }

  /** Each bullet of the mapping is its achievement formatted at the draw index the mapping reached. */
  lemma FormattedBullets(achievements: seq<Achievement>, rng: Rng, k: nat)
    ensures forall i :: 0 <= i < |achievements| ==>
      BulletOf(achievements[i], rng, MapDrawing(achievements, AchievementStep(rng), k).value[i])
    ensures achievements != [] ==>
      MapDrawing(achievements, AchievementStep(rng), k).value[0]
        == GenerateXYZBullet(achievements[0].x, achievements[0].y, achievements[0].z, DefaultOptions(), rng, k).value
  {
    var step := AchievementStep(rng);
    MapDrawingElements(achievements, step, k);
    forall i | 0 <= i < |achievements|
      ensures BulletOf(achievements[i], rng, MapDrawing(achievements, step, k).value[i])
    {
      var j := StepStart(achievements, step, k, i);
      var a := achievements[i];
      assert MapDrawing(achievements, step, k).value[i] == GenerateXYZBullet(a.x, a.y, a.z, DefaultOptions(), rng, j).value;
    }
  }

  /**
    Every formatted achievement is its achievement through
    `generateXYZBullet`: the situation as a phrase, the bullet reading
    "Y Z", and Y and Z derived from the achievement's own Y and Z.
  */
  lemma FormatAchievementsBullets(achievements: seq<Achievement>, rng: Rng, k: nat)
    ensures forall i :: 0 <= i < |achievements| ==>
      var a, b := achievements[i], FormatAchievements(achievements, rng, k).value[i];
      && b.x == ConvertToPhrase(a.x) && b.formatted == b.y + " " + b.z
      && (exists j: nat :: b == GenerateXYZBullet(a.x, a.y, a.z, DefaultOptions(), rng, j).value)
  {
  }
}
