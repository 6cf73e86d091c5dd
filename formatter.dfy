/** `format_killmail_message`: the pure transformation of a zKillboard record and
    a perspective flag into a one-attachment Slack message. */
module Formatter {
  import opened Wrappers
  import opened Records
  import opened Numbers

  const KILL_URL := "https://zkillboard.com/kill/"
  const SYSTEM_URL := "<https://zkillboard.com/system/"
  const UNKNOWN := "Unknown"
  const GOOD := "good"
  const DANGER := "danger"

  /** The labels of the five fields, in the order the attachment lists them. */
  const FIELD_TITLES := ["Damage taken", "Pilots involved", "Value", "Ship", "Location"]

  /** A fallback chain: the first name present, else `default`. */
  function FirstPresent(names: seq<Option<string>>, default: string): (r: string)
    ensures (forall i :: 0 <= i < |names| ==> names[i].None?) ==> r == default
    ensures forall i :: 0 <= i < |names| && names[i].Some? && (forall j :: 0 <= j < i ==> names[j].None?) ==>
      r == names[i].value
    decreases |names|
  {
    if names == [] then default
    else if names[0].Some? then names[0].value
    else FirstPresent(names[1..], default)
  }

  function NameOf(o: Option<Named>): Option<string>
  {
    match o
    case None => None
    case Some(n) => Some(n.name)
  }

  function ShipNameOf(o: Option<ShipType>): Option<string>
  {
    match o
    case None => None
    case Some(t) => Some(t.name)
  }

  /** The victim is shown by pilot name, else by ship type. */
  function VictimName(v: Victim): string
  {
    FirstPresent([NameOf(v.character)], v.shipType.name)
  }

  /** The killer is shown by pilot name, else by ship type, else as "Unknown". */
  function KillerName(a: Attacker): string
  {
    FirstPresent([NameOf(a.character), ShipNameOf(a.shipType)], UNKNOWN)
  }

  /** The killer's group is its corporation, else its faction, else "Unknown". */
  function KillerCorp(a: Attacker): string
  {
    FirstPresent([NameOf(a.corporation), NameOf(a.faction)], UNKNOWN)
  }

  function Title(kill: bool, killer: string, killerCorp: string, victim: string, victimCorp: string): string
  {
    if kill then killer + " (" + killerCorp + ") killed " + victim + " (" + victimCorp + ")"
    else victim + " (" + victimCorp + ") got killed by " + killer + " (" + killerCorp + ")"
  }

  function Color(kill: bool): string
  {
    if kill then GOOD else DANGER
  }

  function TitleLink(killID: int): string
  {
    KILL_URL + IntToString(killID) + "/"
  }

  /** A Slack link `<url|label>` to the solar system's page. */
  function LocationValue(system: SolarSystem): string
  {
    SYSTEM_URL + IntToString(system.id) + "/|" + system.name + ">"
  }

  function Fields(km: Killmail, zkb: Zkb): seq<Field>
  {
    [ Field(FIELD_TITLES[0], Str(FormatThousands(km.victim.damageTaken)), true),
      Field(FIELD_TITLES[1], Int(km.attackerCount), true),
      Field(FIELD_TITLES[2], Str(FormatIsk(zkb.totalValueCents)), true),
      Field(FIELD_TITLES[3], Str(km.victim.shipType.name), true),
      Field(FIELD_TITLES[4], Str(LocationValue(km.solarSystem)), true) ]
  }

  /** The message for `data` seen from the killer's side (`kill`) or the
      victim's. A record without attackers has no killer to show and fails. */
  function FormatKillmailMessage(data: ZkbData, kill: bool, imageLink: ImageLink): (r: Result<Payload, FormatError>)
    ensures r.Err? <==> |data.killmail.attackers| == 0
    ensures r.Err? ==> r.error == NoAttackers
    ensures r.Ok? ==> |r.value.attachments| == 1
    ensures r.Ok? ==> var a := r.value.attachments[0];
      && a.fallback == a.title
      && |a.fields| == |FIELD_TITLES|
      && (forall i :: 0 <= i < |a.fields| ==> a.fields[i].title == FIELD_TITLES[i] && a.fields[i].short)
  {
    var km := data.killmail;
    if |km.attackers| == 0 then Err(NoAttackers)
    else
      var title := Title(kill, KillerName(km.attackers[0]), KillerCorp(km.attackers[0]),
                         VictimName(km.victim), km.victim.corporation.name);
      Ok(Payload([Attachment(
        title,
        title,
        TitleLink(data.killID),
        Color(kill),
        imageLink(km.victim.shipType.id, "type", 64),
        Fields(km, data.zkb))]))
  }

  /** The attachment of a record that has attackers. */
  function AttachmentOf(data: ZkbData, kill: bool, imageLink: ImageLink): Attachment
    requires |data.killmail.attackers| > 0
  {
    FormatKillmailMessage(data, kill, imageLink).value.attachments[0]
  }

  lemma VictimNameFallback(v: Victim)
    ensures v.character.Some? ==> VictimName(v) == v.character.value.name
    ensures v.character.None? ==> VictimName(v) == v.shipType.name
  {
  }

  lemma KillerNameFallback(a: Attacker)
    ensures a.character.Some? ==> KillerName(a) == a.character.value.name
    ensures a.character.None? && a.shipType.Some? ==> KillerName(a) == a.shipType.value.name
    ensures a.character.None? && a.shipType.None? ==> KillerName(a) == UNKNOWN
  {
    var names := [NameOf(a.character), ShipNameOf(a.shipType)];
    if a.character.None? && a.shipType.Some? {
      assert forall j :: 0 <= j < 1 ==> names[j].None?;
      assert names[1] == Some(a.shipType.value.name);
    }
  }

  lemma KillerCorpFallback(a: Attacker)
    ensures a.corporation.Some? ==> KillerCorp(a) == a.corporation.value.name
    ensures a.corporation.None? && a.faction.Some? ==> KillerCorp(a) == a.faction.value.name
    ensures a.corporation.None? && a.faction.None? ==> KillerCorp(a) == UNKNOWN
  {
    var names := [NameOf(a.corporation), NameOf(a.faction)];
    if a.corporation.None? && a.faction.Some? {
      assert forall j :: 0 <= j < 1 ==> names[j].None?;
      assert names[1] == Some(a.faction.value.name);
    }
  }

  /** The title names the killer side first and colours "good" for a kill, and
      names the victim side first and colours "danger" for a loss. */
  lemma TitleByPerspective(data: ZkbData, kill: bool, imageLink: ImageLink)
    requires |data.killmail.attackers| > 0
    ensures var a := AttachmentOf(data, kill, imageLink);
      var km := data.killmail;
      var killer, killerCorp := KillerName(km.attackers[0]), KillerCorp(km.attackers[0]);
      var victim, victimCorp := VictimName(km.victim), km.victim.corporation.name;
      && a.title == a.fallback
      && (kill ==> a.title == killer + " (" + killerCorp + ") killed " + victim + " (" + victimCorp + ")" && a.color == "good")
      && (!kill ==> a.title == victim + " (" + victimCorp + ") got killed by " + killer + " (" + killerCorp + ")" && a.color == "danger")
  {
  }

  /** Flipping the perspective changes the title, its fallback and the colour,
      all three of them, and nothing else. */
  lemma PerspectiveChangesOnlyTitleAndColor(data: ZkbData, imageLink: ImageLink)
    ensures FormatKillmailMessage(data, true, imageLink).Ok? == FormatKillmailMessage(data, false, imageLink).Ok?
    ensures |data.killmail.attackers| > 0 ==>
      var k, l := AttachmentOf(data, true, imageLink), AttachmentOf(data, false, imageLink);
      && k.title != l.title
      && k.color != l.color
      && k.(title := l.title, fallback := l.fallback, color := l.color) == l
  {
    if |data.killmail.attackers| > 0 {
      var k, l := AttachmentOf(data, true, imageLink), AttachmentOf(data, false, imageLink);
      assert |l.title| == |k.title| + |"got "| + |" by"| ;
    }
  }

  /** Attackers after the first never show in the message. */
  lemma OnlyFirstAttackerShown(data: ZkbData, others: seq<Attacker>, kill: bool, imageLink: ImageLink)
    requires |data.killmail.attackers| > 0
    ensures var data' := data.(killmail := data.killmail.(attackers := data.killmail.attackers[..1] + others));
      FormatKillmailMessage(data', kill, imageLink) == FormatKillmailMessage(data, kill, imageLink)
  {
  }

  /** "Pilots involved" is the raw attacker count, "Ship" the victim's ship type,
      and the thumbnail the image server's 64-pixel picture of that type. */
  lemma PlainFields(data: ZkbData, kill: bool, imageLink: ImageLink)
    requires |data.killmail.attackers| > 0
    ensures var a := AttachmentOf(data, kill, imageLink);
      && a.fields[1].value == Int(data.killmail.attackerCount)
      && a.fields[3].value == Str(data.killmail.victim.shipType.name)
      && a.thumbUrl == imageLink(data.killmail.victim.shipType.id, "type", 64)
  {
  }

  /** "Damage taken" is the damage in decimal with comma-separated groups of
      three; without the commas it is `str(damageTaken)`, and it reads back. */
  lemma DamageTakenRendering(data: ZkbData, kill: bool, imageLink: ImageLink)
    requires |data.killmail.attackers| > 0
    ensures var v := AttachmentOf(data, kill, imageLink).fields[0].value;
      && v.Str?
      && SignedWellGrouped(v.s)
      && RemoveCommas(v.s) == IntToString(data.killmail.victim.damageTaken)
      && ParseInt(RemoveCommas(v.s)) == Some(data.killmail.victim.damageTaken)
  {
    FormatThousandsSpec(data.killmail.victim.damageTaken);
  }

  /** "Value" ends in " ISK" after two decimals and reads back to the value. */
  lemma ValueRendering(data: ZkbData, kill: bool, imageLink: ImageLink)
    requires |data.killmail.attackers| > 0
    ensures var v := AttachmentOf(data, kill, imageLink).fields[2].value;
      && v.Str?
      && |v.s| >= 7 && v.s[|v.s| - 4..] == " ISK" && v.s[|v.s| - 7] == '.'
      && ParseIsk(v.s) == Some(data.zkb.totalValueCents)
  {
    FormatIskSpec(data.zkb.totalValueCents);
  }

  /** The first index of `c` in `s`, or `|s|` when it does not occur. */
  function IndexOf(s: string, c: char): (k: nat)
    ensures k <= |s|
    ensures forall i :: 0 <= i < k ==> s[i] != c
    ensures k < |s| ==> s[k] == c
    decreases |s|
  {
    if s == [] then 0
    else if s[0] == c then 0
    else 1 + IndexOf(s[1..], c)
  }

  /** Reads the kill id back out of a kill link. */
  function ParseKillLink(link: string): Option<int>
  {
    if |link| <= |KILL_URL| || link[..|KILL_URL|] != KILL_URL || link[|link| - 1] != '/' then None
    else ParseInt(link[|KILL_URL|..|link| - 1])
  }

  /** Reads the solar system back out of a location link; the id ends at the
      first slash, the name runs to the closing bracket. */
  function ParseLocation(s: string): Option<SolarSystem>
  {
    if |s| <= |SYSTEM_URL| || s[..|SYSTEM_URL|] != SYSTEM_URL || s[|s| - 1] != '>' then None
    else
      var rest := s[|SYSTEM_URL|..|s| - 1];
      var k := IndexOf(rest, '/');
      if k + 2 > |rest| || rest[k..k + 2] != "/|" then None
      else match ParseInt(rest[..k])
        case None => None
        case Some(id) => Some(SolarSystem(id, rest[k + 2..]))
  }

  /** The kill link is the zKillboard kill page and names the kill id. */
  lemma TitleLinkRoundTrip(data: ZkbData, kill: bool, imageLink: ImageLink)
    requires |data.killmail.attackers| > 0
    ensures var link := AttachmentOf(data, kill, imageLink).titleLink;
      && link[..|KILL_URL|] == "https://zkillboard.com/kill/"
      && ParseKillLink(link) == Some(data.killID)
  {
    var link := TitleLink(data.killID);
    var id := IntToString(data.killID);
    assert link[..|KILL_URL|] == KILL_URL;
    assert link[|KILL_URL|..|link| - 1] == id;
    IntToStringRoundTrip(data.killID);
  }

  lemma IntToStringHasNoSlash(n: int)
    ensures forall i :: 0 <= i < |IntToString(n)| ==> IntToString(n)[i] != '/'
  {
    if n < 0 {
      var d := Decimal(-n);
      assert forall i :: 1 <= i < |IntToString(n)| ==> IntToString(n)[i] == d[i - 1];
    }
  }

  lemma {:induction false} ParseLocationOfValue(system: SolarSystem)
    ensures ParseLocation(LocationValue(system)) == Some(system)
  {
    var s := LocationValue(system);
    var id := IntToString(system.id);
    var rest := id + "/|" + system.name;
    assert s == SYSTEM_URL + rest + ">";
    assert s[..|SYSTEM_URL|] == SYSTEM_URL;
    assert s[|SYSTEM_URL|..|s| - 1] == rest;
    IntToStringHasNoSlash(system.id);
    var k := IndexOf(rest, '/');
    assert rest[|id|] == '/';
    assert k == |id|;
    assert rest[k..k + 2] == "/|";
    assert rest[..k] == id;
    assert rest[k + 2..] == system.name;
    IntToStringRoundTrip(system.id);
  }

  /** The location link is the zKillboard system page and names the system's
      id and name, whatever characters the name holds. */
  lemma LocationRoundTrip(data: ZkbData, kill: bool, imageLink: ImageLink)
    requires |data.killmail.attackers| > 0
    ensures var v := AttachmentOf(data, kill, imageLink).fields[4].value;
      && v.Str?
      && ParseLocation(v.s) == Some(data.killmail.solarSystem)
  {
    ParseLocationOfValue(data.killmail.solarSystem);
  }
}
