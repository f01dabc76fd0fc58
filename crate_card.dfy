/**
 * The CrateCard component: a card for one crate with a status badge, at most
 * three feature badges, and a documentation row that only released crates get;
 * a crate that is still to come is shown dimmed and ignores mouse and touch input.
 */
module CrateCard {
  import opened Wrappers
  import opened JsBuiltins

  datatype CrateStatus = Stable | Beta | ComingSoon

  /** The `CrateStatus` string literal for the status. */
  function StatusKey(status: CrateStatus): string {
    match status
    case Stable => "stable"
    case Beta => "beta"
    case ComingSoon => "coming-soon"
  }

  datatype StatusBadge = StatusBadge(text: string, className: string)

  /** `statusConfig[status]`: defined for every status. */
  function StatusConfig(status: CrateStatus): (b: StatusBadge)
    ensures b.className == "crate-badge " + StatusKey(status)
    ensures status == Stable ==> b.text == "Stable"
    ensures status == Beta ==> b.text == "Beta"
    ensures status == ComingSoon ==> b.text == "Coming Soon"
  {
    match status
    case Stable => StatusBadge("Stable", "crate-badge stable")
    case Beta => StatusBadge("Beta", "crate-badge beta")
    case ComingSoon => StatusBadge("Coming Soon", "crate-badge coming-soon")
  }

  /** Different statuses get different badge classes and different badge texts. */
  lemma StatusConfigInjective(s1: CrateStatus, s2: CrateStatus)
    requires s1 != s2
    ensures StatusConfig(s1).className != StatusConfig(s2).className
    ensures StatusConfig(s1).text != StatusConfig(s2).text
  {
  }

  /** The most feature badges a card shows. */
  const MaxShownFeatures: nat := 3

  /** `features.slice(0, 3)`: the first three features, or all of them when there
      are fewer, in their original order. */
  function ShownFeatures(features: seq<string>): (r: seq<string>)
    ensures |r| == if |features| < MaxShownFeatures then |features| else MaxShownFeatures
    ensures r <= features
  {
    SliceFromStart(features, MaxShownFeatures);
    Slice(features, 0, MaxShownFeatures)
  }

  /** The props of `<CrateCard>`; an omitted `delay` is `None`. */
  datatype Props = Props(
    name: string,
    description: string,
    status: CrateStatus,
    features: seq<string>,
    href: string,
    delay: Option<real>)

  /** The entrance animation's delay in seconds: the given one, 0 when omitted. */
  function EffectiveDelay(p: Props): (d: real)
    ensures p.delay.None? ==> d == 0.0
    ensures p.delay.Some? ==> d == p.delay.value
  {
    p.delay.GetOr(0.0)
  }

  /** The class tokens of the card's link: the base ones, plus the disabling ones for
      a crate that is still to come. */
  function LinkClasses(status: CrateStatus): (r: seq<string>)
    ensures |r| >= 3 && r[..3] == ["feature-card", "block", "h-full"]
    ensures status == ComingSoon ==> r[3..] == ["opacity-60", "pointer-events-none"]
    ensures status != ComingSoon ==> |r| == 3
  {
    ["feature-card", "block", "h-full"] +
    (if status == ComingSoon then ["opacity-60", "pointer-events-none"] else [])
  }

  datatype CardView = CardView(
    href: string,
    linkClasses: seq<string>,
    name: string,
    badge: StatusBadge,
    description: string,
    featureBadges: seq<string>,
    showsDocumentationRow: bool,
    delay: real)

  /** What `<CrateCard>` renders. */
  function Render(p: Props): (v: CardView)
    ensures v.linkClasses == LinkClasses(p.status)
    ensures v.badge == StatusConfig(p.status)
    ensures v.featureBadges == ShownFeatures(p.features)
    ensures v.showsDocumentationRow <==> p.status != ComingSoon
    ensures v.delay == EffectiveDelay(p)
    ensures v.href == p.href && v.name == p.name && v.description == p.description
  {
    CardView(p.href, LinkClasses(p.status), p.name, StatusConfig(p.status), p.description,
      ShownFeatures(p.features), p.status != ComingSoon, EffectiveDelay(p))
  }

  /** A card is disabled (dimmed and inert) exactly when it has no documentation
      row, which is exactly when its crate is still to come. */
  lemma DisabledIffNoDocumentationRow(p: Props)
    ensures var v := Render(p);
      ("opacity-60" in v.linkClasses && "pointer-events-none" in v.linkClasses) <==> !v.showsDocumentationRow
    ensures var v := Render(p);
      ("opacity-60" in v.linkClasses || "pointer-events-none" in v.linkClasses) <==> p.status == ComingSoon
  {
  }

  /** Every card keeps the base classes, whatever its status. */
  lemma BaseClassesAlwaysPresent(p: Props)
    ensures Render(p).linkClasses[..3] == ["feature-card", "block", "h-full"]
  {
  }
}
