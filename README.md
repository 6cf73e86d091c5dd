# slack-formatter-zkillboard, modelled in Dafny

The service reads zKillboard killmail records from a RabbitMQ queue, turns each
into a Slack message with one attachment, publishes that message for the Slack
sender, and then acknowledges the inbound delivery. This project models the
formatter (`format_killmail_message`) as pure functions over typed records and
the message handler (`callback`) as a method that records what it asks of the
broker channel, and proves what the formatter shows and in which order the
handler publishes and acknowledges.

Modules:

- `Wrappers` (wrappers.dfy): `Option` and `Result`.
- `Records` (records.dfy): the killmail record, with an `Option` for every key
  the source tests with `in` (`character`, `shipType`, `corporation`,
  `faction`), and the Slack payload. A field value is `Str(string)` or
  `Int(int)`, because "Pilots involved" carries the raw integer count.
- `Numbers` (numbers.dfy): `str(n)`, `'{:,}'.format(n)` and
  `'{:,.2f} ISK'.format(x)`, with parsers that read each rendering back.
- `Formatter` (formatter.dfy): the fallback chains, the title and colour for
  both perspectives, the five fields, the links, and the parsers for the links.
- `Consumer` (consumer.dfy): the inbound envelope, the outbound message, a
  `Channel` class whose `events` field is the log of publishes and
  acknowledgements, and `Callback`. The connection can drop between any two
  requests, so a message can be published and its delivery left unacknowledged.
  This is the source of at-least-once delivery.

Every fallback chain is one function, `FirstPresent`. It picks the first name
present in a list, or a default when none is. The image-server link builder
comes from another library, so the formatter takes it as a function parameter
`imageLink`. The thumbnail is proved to be `imageLink(shipType.id, "type", 64)`.

## Model

| member | source | states |
|---|---|---|
| Formatter.FirstPresent | main.py:31-50 | a fallback chain yields the first present name; the default only when none is present |
| Formatter.VictimNameFallback | main.py:31-34 | the victim is shown by character name when there is a character, else by ship type name |
| Formatter.KillerNameFallback | main.py:38-43 | the killer is the first attacker's character name, else its ship type name, else "Unknown" |
| Formatter.KillerCorpFallback | main.py:45-50 | the killer's group is the first attacker's corporation name, else its faction name, else "Unknown" |
| Formatter.OnlyFirstAttackerShown | main.py:38-50 | replacing every attacker after the first leaves the message unchanged |
| Formatter.FormatKillmailMessage | main.py:28-108 | fails exactly when there are no attackers; otherwise exactly one attachment whose fallback is its title, with the five fields Damage taken, Pilots involved, Value, Ship, Location in that order, all short |
| Formatter.TitleByPerspective | main.py:52-58 | for a kill the title is "killer (corp) killed victim (corp)" in "good"; for a loss it is "victim (corp) got killed by killer (corp)" in "danger" |
| Formatter.PerspectiveChangesOnlyTitleAndColor | main.py:52-108 | flipping the kill flag always changes title and colour and changes nothing else in the attachment |
| Formatter.PlainFields | main.py:66-98 | Pilots involved is the raw integer attacker count, Ship is the victim's ship type name, the thumbnail is the image link of (ship type id, "type", 64) |
| Formatter.DamageTakenRendering | main.py:60-64 | Damage taken is a grouped rendering of the damage; without commas it is the decimal rendering, and it parses back to the damage |
| Formatter.ValueRendering | main.py:72-76 | Value ends in " ISK" after a point and two decimals, and parses back to the value in hundredths |
| Formatter.TitleLinkRoundTrip | main.py:96 | the title link starts with the zKillboard kill URL and parses back to the kill id |
| Formatter.LocationRoundTrip | main.py:78-82 | the Location link parses back to the solar system's id and name, whatever characters the name holds |
| Numbers.Decimal | main.py:62 | the decimal rendering of a natural number is non-empty, all digits, and has no leading zero |
| Numbers.ParseDecimalOfDecimal | main.py:62 | the decimal rendering of n reads back as n |
| Numbers.IntToStringRoundTrip | main.py:96 | the rendering of any integer, negative ones included, reads back as that integer |
| Numbers.GroupThousandsWellGrouped | main.py:62 | grouping a digit string gives a first group of one to three digits and later groups of exactly three, each after a comma |
| Numbers.GroupThousandsRemoveCommas | main.py:62 | deleting the commas from a grouped digit string gives the digits back |
| Numbers.FormatThousandsSpec | main.py:62 | `'{:,}'` of n is sign plus well-grouped digits; deleting the commas gives `str(n)`, which reads back as n |
| Numbers.FormatIskSpec | main.py:74 | the ISK rendering is a minus sign exactly for a negative value, the whole ISK as grouped digits that lose their commas to the plain decimal rendering, a point, the two decimals and " ISK"; it reads back to the value in hundredths |
| Numbers.FormatThousandsExample | main.py:62 | `'{:,}'` renders 1234567 as "1,234,567" |
| Numbers.FormatIskExample | main.py:74 | a value of 1234567.50 ISK renders as "1,234,567.50 ISK" |
| Consumer.Channel.BasicPublish | main.py:123-130 | while the connection still carries requests, a publish appends exactly that publish to the log and uses up one request; once it has dropped, the publish fails and changes nothing |
| Consumer.Channel.BasicAck | main.py:132 | while the connection still carries requests, an acknowledgement appends exactly that ack and uses up one request; once it has dropped, the ack fails and changes nothing |
| Consumer.Callback | main.py:111-132 | the handler appends exactly the callback's requests to the log and reports a formatting failure, a failed publish, a publish whose ack failed, or an acknowledgement; an ack in the log always follows a publish |
| Consumer.CallbackPublishesThenAcks | main.py:114-132 | a callback makes no request when formatting fails; its first request is the persistent publish to regner/slack.send.webhook of the inbound webhook and exactly the formatter's message; an ack of its delivery tag can only come second, and it comes exactly when formatting succeeds and the connection lasts for both requests |
| Consumer.CallbackKeepsAcksAfterPublishes | main.py:123-132 | after any number of callbacks, however the connection fails, every ack in the log comes right after a publish |
| Consumer.RedeliveryPublishesTwice | main.py:123-132 | if the connection drops between the publish and the ack, the message is published without an ack, and handling the redelivery publishes the same message again before acking |

## Left out

- Broker setup: the connection, the exchange, queue and binding declarations, `basic_qos`, `basic_consume` and `start_consuming` (main.py:16-25, main.py:135-137). This is I/O at module level. The redelivery of unacknowledged messages is broker policy and is not modelled either.
- JSON decoding and encoding (main.py:112, main.py:126). The envelope arrives as a typed `Envelope`, and the published body is the typed `Outbound` value. A malformed body and a missing key are ruled out by the types, so those two failure paths are not modelled.
- Logging (main.py:11-13, main.py:116).
- `get_image_server_link` is in another library. It is the parameter `imageLink`, and only the arguments it receives are stated.
- Formatter.ValueRendering: `totalValue` is a float in the source. The model holds it as whole hundredths of ISK, so the float-to-two-decimals rounding and float corner cases (`-0.0`, infinities, NaN) are not modelled.
- Formatter.FormatKillmailMessage: an empty attacker list raises `IndexError` in the source. The model returns `Err(NoAttackers)` instead, and `Callback` turns that into an outcome with no publish and no ack, as the uncaught exception does.
- Consumer.Callback: the source publishes on the module-level `channel` and acknowledges on the `ch` argument. These are the same channel object, so the model uses one `Channel`. A lost connection is modelled by `budget`: the number of requests the connection still carries out. So the connection can drop before the publish, between the publish and the ack, or after both. A process killed at one of those points leaves the same log. The only property of the publish that is modelled is the delivery mode.
- `attackerCount` is copied as given. Nothing relates it to the length of `attackers`, and the source does not either.
