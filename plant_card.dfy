/**
 * What a plant card shows (components/plant/PlantCard.tsx): the health
 * badge, the watering status, and the plant's display name.
 */
module PlantCard {
  import opened Wrappers
  import opened JsText
  import Utils

  /** The badge colours (components/ui/Badge.tsx). */
  datatype Variant = Healthy | Attention | Urgent | Neutral

  /** The `health_status` values a plant row may hold (types/database.types.ts). */
  datatype HealthStatus = HealthyStatus | NeedsAttention | Sick | PestIssue | Dead

  function StatusName(h: HealthStatus): string {
    match h
    case HealthyStatus => "healthy"
    case NeedsAttention => "needs_attention"
    case Sick => "sick"
    case PestIssue => "pest_issue"
    case Dead => "dead"
  }

  /**
   * `getHealthVariant`: `healthy`, `needs_attention` and `sick` get their own
   * colours; every other text is neutral.
   */
  function HealthVariant(health: string): (r: Variant)
    ensures r == Healthy <==> health == "healthy"
    ensures r == Attention <==> health == "needs_attention"
    ensures r == Urgent <==> health == "sick"
    ensures r == Neutral <==> health !in {"healthy", "needs_attention", "sick"}
  {
    if health == "healthy" then Healthy
    else if health == "needs_attention" then Attention
    else if health == "sick" then Urgent
    else Neutral
  }

  /** A pest issue and a dead plant both show a neutral badge; the other statuses each have a colour of their own. */
  lemma StatusVariants()
    ensures HealthVariant(StatusName(HealthyStatus)) == Healthy
    ensures HealthVariant(StatusName(NeedsAttention)) == Attention
    ensures HealthVariant(StatusName(Sick)) == Urgent
    ensures HealthVariant(StatusName(PestIssue)) == Neutral
    ensures HealthVariant(StatusName(Dead)) == Neutral
  {
    assert StatusName(PestIssue) != "healthy" && StatusName(PestIssue) != "needs_attention" && StatusName(PestIssue) != "sick";
    assert StatusName(Dead) != "healthy" && StatusName(Dead) != "needs_attention" && StatusName(Dead) != "sick";
  }

  /** The badge text: the status with its first underscore, and only that one, made a space. */
  function BadgeLabel(health: string): (r: string)
    ensures |r| == |health|
    ensures '_' !in health ==> r == health
    ensures forall i :: 0 <= i < |r| && r[i] != health[i] ==> health[i] == '_' && r[i] == ' ' && '_' !in health[..i]
  {
    ReplaceFirst(health, '_', ' ')
  }

  /**
   * The label of a status made of a first word, an underscore and a rest:
   * the first underscore becomes a space and the rest is kept as it is, later
   * underscores included.
   */
  lemma BadgeLabelFirstOnly(first: string, rest: string)
    requires '_' !in first
    ensures BadgeLabel(first + "_" + rest) == first + " " + rest
  {
    var s, r, t := first + "_" + rest, BadgeLabel(first + "_" + rest), first + " " + rest;
    forall i | 0 <= i < |s|
      ensures r[i] == t[i]
    {
      if i < |first| {
        assert s[i] == first[i];
      } else if i == |first| {
        assert s[..i] == first;
      } else {
        assert s[..i][|first|] == '_';
        assert s[i] == rest[i - |first| - 1] == t[i];
      }
    }
  }

  /** `daysSinceWatering`: whole days since the last watering, or nothing when there is no watering date. */
  function WateringDays(elapsedMs: Option<int>): (r: Option<int>)
    ensures r.None? <==> elapsedMs.None?
    ensures r.Some? ==> r.value * Utils.MsPerDay <= elapsedMs.value < (r.value + 1) * Utils.MsPerDay
  {
    if elapsedMs.Some? then Some(Utils.DaysSince(elapsedMs.value)) else None
  }

  /**
   * `getWaterStatus`: no status when the day count is missing or zero (the
   * count is tested for truthiness); a week or more is urgent, five or six
   * days need attention, and anything else, a future date included, is
   * healthy.
   */
  function WaterStatus(days: Option<int>): (r: Option<Variant>)
    ensures r.None? <==> days.None? || days.value == 0
    ensures r == Some(Urgent) <==> days.Some? && days.value >= 7
    ensures r == Some(Attention) <==> days.Some? && 5 <= days.value < 7
    ensures r == Some(Healthy) <==> days.Some? && days.value != 0 && days.value < 5
  {
    if days.None? || days.value == 0 then None
    else if days.value >= 7 then Some(Urgent)
    else if days.value >= 5 then Some(Attention)
    else Some(Healthy)
  }

  /** How pressing a watering status is. */
  function Severity(v: Variant): nat {
    match v
    case Healthy => 0
    case Attention => 1
    case Urgent => 2
    case Neutral => 0
  }

  /** For positive day counts the status never becomes less pressing as days pass. */
  lemma WaterSeverityMonotone(d1: int, d2: int)
    requires 0 < d1 <= d2
    ensures WaterStatus(Some(d1)).Some? && WaterStatus(Some(d2)).Some?
    ensures Severity(WaterStatus(Some(d1)).value) <= Severity(WaterStatus(Some(d2)).value)
  {
  }

  /** A plant watered less than a day ago shows no watering status at all: its count is zero, which is falsy. */
  lemma WateredTodayHasNoStatus(elapsedMs: int)
    requires 0 <= elapsedMs < Utils.MsPerDay
    ensures WateringDays(Some(elapsedMs)) == Some(0)
    ensures WaterStatus(WateringDays(Some(elapsedMs))).None?
  {
    Utils.DaysSinceSign(elapsedMs);
  }

  /** The colour class a watering status adds to the drop; a neutral status adds none. */
  function ColourClass(v: Variant): string {
    match v
    case Urgent => "text-urgent"
    case Attention => "text-attention"
    case Healthy => "text-ocean-mid"
    case Neutral => ""
  }

  /**
   * The classes of the water drop: the base class, followed by the colour
   * class of an urgent, attention or healthy status.
   */
  function WaterDropClass(status: Option<Variant>): (r: string)
    ensures status.None? || status == Some(Neutral) ==> r == "text-base"
    ensures status.Some? && status.value != Neutral ==> r == "text-base " + ColourClass(status.value)
  {
    BaseAndColour("text-base", ColourClass(Urgent));
    BaseAndColour("text-base", ColourClass(Attention));
    BaseAndColour("text-base", ColourClass(Healthy));
    Utils.Cn([Utils.Str("text-base"),
              if status == Some(Urgent) then Utils.Str("text-urgent") else Utils.False,
              if status == Some(Attention) then Utils.Str("text-attention") else Utils.False,
              if status == Some(Healthy) then Utils.Str("text-ocean-mid") else Utils.False])
  }

  /** A base class followed by falsy entries and at most one colour class, in any of the three colour slots. */
  lemma BaseAndColour(base: string, colour: string)
    requires base != "" && colour != ""
    ensures Utils.Cn([Utils.Str(base), Utils.False, Utils.False, Utils.False]) == base
    ensures Utils.Cn([Utils.Str(base), Utils.Str(colour), Utils.False, Utils.False]) == base + " " + colour
    ensures Utils.Cn([Utils.Str(base), Utils.False, Utils.Str(colour), Utils.False]) == base + " " + colour
    ensures Utils.Cn([Utils.Str(base), Utils.False, Utils.False, Utils.Str(colour)]) == base + " " + colour
  {
    var f := Utils.False;
    assert Utils.Kept([f]) == [];
    assert Utils.Kept([f, f]) == [];
    assert Utils.Kept([f, f, f]) == [];
    assert Utils.Kept([Utils.Str(colour)]) == [colour];
    assert Utils.Kept([Utils.Str(colour), f]) == [colour];
    assert Utils.Kept([Utils.Str(colour), f, f]) == [colour];
    assert Utils.Kept([f, Utils.Str(colour)]) == [colour];
    assert Utils.Kept([f, Utils.Str(colour), f]) == [colour];
    assert Utils.Kept([f, f, Utils.Str(colour)]) == [colour];
    assert Join([base], ' ') == base;
    assert Join([base, colour], ' ') == base + " " + colour;
  }

  /** The catalogue entry a plant may point to; only its common names are read here. */
  datatype PlantMaster = PlantMaster(commonNames: seq<string>)

  /**
   * The name shown: the custom name if it is non-empty, else the first
   * common name if there is one and it is non-empty, else "Unknown Plant".
   */
  function DisplayName(customName: Option<string>, master: Option<PlantMaster>): (r: string)
    ensures r != ""
    ensures customName.Some? && customName.value != "" ==> r == customName.value
    ensures ((customName.None? || customName.value == "") && master.Some? && |master.value.commonNames| > 0 &&
             master.value.commonNames[0] != "") ==> r == master.value.commonNames[0]
    ensures r == "Unknown Plant" || (customName.Some? && r == customName.value) ||
      (master.Some? && |master.value.commonNames| > 0 && r == master.value.commonNames[0])
  {
    if customName.Some? && customName.value != "" then customName.value
    else if master.Some? && |master.value.commonNames| > 0 && master.value.commonNames[0] != "" then master.value.commonNames[0]
    else "Unknown Plant"
  }
}
