/** The typed shape of a zKillboard killmail record and of the Slack attachment
    payload built from it. Every key the formatter reads unconditionally is a
    plain field; every key it tests with `in` is an `Option`. */
module Records {
  import opened Wrappers

  /** A `{name}` object: a character, a corporation or a faction. */
  datatype Named = Named(name: string)

  /** A `{id, name}` ship type. */
  datatype ShipType = ShipType(id: int, name: string)

  datatype SolarSystem = SolarSystem(id: int, name: string)

  datatype Victim = Victim(
    character: Option<Named>,
    corporation: Named,
    shipType: ShipType,
    damageTaken: int)

  datatype Attacker = Attacker(
    character: Option<Named>,
    shipType: Option<ShipType>,
    corporation: Option<Named>,
    faction: Option<Named>)

  datatype Killmail = Killmail(
    victim: Victim,
    attackers: seq<Attacker>,
    solarSystem: SolarSystem,
    attackerCount: int)

  /** The zKillboard metadata. The ISK value is held in hundredths of an ISK
      (the float rounded to two decimals, as the rendering shows it). */
  datatype Zkb = Zkb(totalValueCents: int)

  /** The `zkb_data` object of the inbound message. */
  datatype ZkbData = ZkbData(killID: int, killmail: Killmail, zkb: Zkb)

  /** A field's `value` is a string, except for "Pilots involved", whose value is
      the raw integer attacker count. */
  datatype FieldValue = Str(s: string) | Int(i: int)

  datatype Field = Field(title: string, value: FieldValue, short: bool)

  datatype Attachment = Attachment(
    title: string,
    fallback: string,
    titleLink: string,
    color: string,
    thumbUrl: string,
    fields: seq<Field>)

  datatype Payload = Payload(attachments: seq<Attachment>)

  /** Why formatting a record can fail: the record has no attacker to read at
      index 0; indexing the empty attacker list raises `IndexError`. */
  datatype FormatError = NoAttackers

  /** The image-server link builder, `get_image_server_link(id, kind, size)`. It
      belongs to another library, so the formatter takes it as a parameter. */
  type ImageLink = (int, string, int) -> string
}
