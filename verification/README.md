# heliobridge: a verified model of its protocol cores

heliobridge stands between a Growatt datalogger, the vendor's cloud and Home Assistant. This project models the
parts of it whose correctness spans many calls, and proves what they promise over every input or every run:

| file | what it models |
|---|---|
| `MqttOctets`, `MqttPacket`, `MqttMethods`, `MqttCodec` | the MQTT 3.1.1 codec: field and varint readers and writers, the packet bodies, and the round trip between them |
| `MqttText`, `MqttWire` | what counts as text, and where on the wire each bit and field of a packet is, in numbers |
| `MqttStream`, `MqttSplits` | the framer that turns arbitrary reads into packets under a size limit, and which streams every split delivers alike |
| `Relay` | which of the device's answers belong to the cloud's commands, and what the relay policy makes of it |
| `Registry` | which session serves which device, under every interleaving of registers and drops |
| `Links` | the publisher's one link per device, and farewells that arrive late |
| `Entities`, `EntityFacts`, `Commands` | the configuration-dependent entity catalogue, what each register becomes in it, and what a command payload may change |
| `Frames`, `StatePayload`, `Publishing`, `Gates`, `Discovery`, `DeviceLink` | one device's link: retained discovery, gated availability, presence, settings and state |
| `LinkSays`, `LinkRuns`, `Drops`, `Presence`, `GateRuns` | what each event publishes, and whole runs of links, restarts, reconnections, losses and drops against one broker |
| `Recording` | recorded frames, and the rotating files that keep the newest of them |
| `Resting` | the resting-voltage tracker, against the history it summarises |

Each imperative part of the program is a method or a class whose `ensures` ties it to a specification function; what
the program promises is then proved of those functions. Asynchronous code is a state machine over the sections that
run without interruption, and a run is any sequence of them. Strings on the wire are octet sequences; UTF-8 is the
well-formedness table of RFC 3629. Times are natural numbers that never decrease where a lemma says so.

## What turned out to be false, and what holds instead

* *Any split into reads delivers the same packets.* A PUBLISH of 18 octets under a limit of 16 is delivered in one
  read and refused octet by octet (`MqttSplits.EighteenUnderSixteen`). Every split is delivered as if the stream were
  in one piece exactly when each leading packet is decided within `limit + 1` octets
  (`MqttStream.ChunkingInvisibleExactly`); splits agree with each other exactly when that holds or the stream ends with
  the very octet that goes over the limit (`MqttSplits.SplitsAgreeExactly`). For limits of at least four octets the
  first condition is a matter of announced lengths, and a packet one octet over the limit always gets through
  (`MqttStream.FitsByAnnouncement`).
* *Oldest-first attribution is the best possible.* Two ranges that share a register can waste the older
  (`Relay.OldestFirstWastes`); on runs over a given set of ranges it is optimal exactly when no two different ones
  overlap (`Relay.OptimalExactlyWhenSeparate`).
* *The watched set is the registry once everything is quiet.* Two announcements can send their snapshots in the other
  order (`Registry.WatchCanGoStale`). The watched set is right exactly when every device is served by the session that
  served it when the snapshot sent last was taken (`Registry.WatchedExactly`); were each snapshot sent at once, that
  would hold whenever no call is under way (`Registry.WatchedWhenAtOnce`).
* *A broker is told everything again.* Gates are not: connected, a frame, the gate's topic forgotten, connected again,
  and the broker holds no answer while the link records one (`GateRuns.GateNotToldAgain`). Over every run the broker
  has the recorded answer exactly when there was none yet or the last one that was news came after the topic was last
  forgotten (`GateRuns.RunMirroredExactly`).
* *What was announced is on the broker.* A first connection of which the full queue refuses one description leaves the
  broker short of it until the next connection (`Drops.OneRefused`); a connection leaves it exact exactly when every
  message refused then could be spared (`Drops.ConnectionMakesGoodExactly`).
* *Recorded frames are read back.* What is appended to a file cut mid-record need not be, and after one octet of a
  record none of it is (`Recording.OneOctetHidesAll`). Whatever is appended is read back exactly when the file ended
  with a whole record (`Recording.ReadBackExactlyWhenWhole`).

## What is asked of a driver

Two properties hold for some drivers and not for others; each has an exact condition on the driver's catalogue, which
can be checked before anything runs. The drivers below that do not meet them are made up.

* `everything` covers every configuration exactly when it anticipates every reading any of them publishes: a reading
  that shares its name with a setting of the widest configuration must be a plain sensor, and any other must belong to
  no battery pack beyond the fourth (`Entities.EverythingCoversExactly`; `Entities.ClaimingUncovered` and
  `Entities.FivePacksUncovered` are two drivers that do not meet it). With the retired list added, the same is exactly
  when discovery reconciles on every run whose queue takes everything (`LinkRuns.AlwaysReconcilesExactly`).
* Every offered control is honoured exactly when the driver backs it: no destructive action has its name, and a restart
  button has an action behind it (`Commands.OfferedIsHonouredExactly`; `Commands.SmallRestartUnbacked` is a driver that
  backs none).

## Model

| member | source | states |
|---|---|---|
| MqttOctets.WordRoundTrip | src/mqtt.rs:909-914 | A big-endian word written is the word read back, with what follows left over. |
| MqttOctets.FieldRoundTrip | src/mqtt.rs:920-926 | A length-prefixed field of up to 65535 octets is read back with exactly what followed it. |
| MqttOctets.FieldRewrites | src/mqtt.rs:920-926 | Whatever a field was read from is the field's own encoding followed by the rest; a field read is never longer than its prefix can say. |
| MqttOctets.VarintRoundTrip | src/mqtt.rs:948-1024 | Every value that fits so many varint octets is written in as many as it needs and read back whatever follows. |
| MqttOctets.VarintBounded | src/mqtt.rs:948-964 | A varint read within so many octets says less than 128 to that power, however overlong it was written. |
| MqttOctets.VarintStable | src/mqtt.rs:948-964 | Once a varint is complete or overlong, further octets change nothing. |
| MqttOctets.VarintCut | src/mqtt.rs:948-964 | A varint cut short of its last octet asks for more rather than failing. |
| MqttOctets.WeightedStep | src/mqtt.rs:948-964 | The loop's running sum and weight after one octet stand for the same varint as before it. |
| MqttOctets.Reader.U8 | src/mqtt.rs:903-907 | The cursor gives the next octet and moves past it, or gives nothing and stays. |
| MqttOctets.Reader.U16 | src/mqtt.rs:909-914 | The cursor gives the next word and moves past it, or gives nothing and stays. |
| MqttOctets.Reader.Field | src/mqtt.rs:920-926 | The cursor gives the field in front of it and moves past it, or gives nothing. |
| MqttOctets.Reader.Varint | src/mqtt.rs:948-964 | The loop reads the varint in front of the cursor within four octets and moves past exactly it. |
| MqttOctets.Writer.Field | src/mqtt.rs:1001-1005 | A field is appended under a length prefix that saturates at 65535. |
| MqttOctets.Writer.Varint | src/mqtt.rs:1012-1024 | The loop appends the shortest varint of the value. |
| MqttMethods.DecodeConnect | src/mqtt.rs:704-781 | A CONNECT body is decoded field by field with the source's errors in the source's order. |
| MqttMethods.DecodePublish | src/mqtt.rs:812-836 | A PUBLISH body and flags are decoded, or refused with the source's error. |
| MqttMethods.DecodeSubscribe | src/mqtt.rs:860-879 | The filter loop decodes a SUBSCRIBE body up to its end or its first error. |
| MqttMethods.DecodeBody | src/mqtt.rs:577-630 | Each packet type's complete body is decoded or refused as its type requires, field by field for every type. |
| MqttMethods.DecodePacket | src/mqtt.rs:577-630 | One packet is decoded from the front of a buffer, or more octets are asked for, or an error is named. |
| MqttMethods.ConnectFlagsOf | src/mqtt.rs:297-316 | Setting the bits one at a time gives the flags octet the fields call for. |
| MqttMethods.EncodePayload | src/mqtt.rs:784-803 | Will fields, username and password are written after the client identifier in the protocol's order. |
| MqttMethods.EncodeConnect | src/mqtt.rs:784-803 | The writer produces the CONNECT body. |
| MqttMethods.EncodePublish | src/mqtt.rs:843-851 | The writer produces the PUBLISH body, with 1 for a packet id that is missing at QoS 1. |
| MqttMethods.EncodeSubscribe | src/mqtt.rs:881-889 | The loop writes the packet id and every filter with its options. |
| MqttMethods.EncodeBody | src/mqtt.rs:658-685 | Each packet type's body is written out. |
| MqttMethods.EncodePacket | src/mqtt.rs:658-695 | A whole packet is encoded, or refused because its body is longer than the varint can say. |
| MqttCodec.ConnectFlagsRoundTrip | src/mqtt.rs:270-351 | Every accessor of the flags octet returns what the packet's fields said. |
| MqttCodec.ConnectRoundTrip | src/mqtt.rs:704-803 | A well-formed CONNECT body decodes to the packet it was written from, will, username and password included. |
| MqttCodec.PublishRoundTrip | src/mqtt.rs:812-851 | A well-formed PUBLISH body and its flags decode to the packet they were written from. |
| MqttCodec.FiltersRoundTrip | src/mqtt.rs:860-889 | Any list of filters survives the SUBSCRIBE loop. |
| MqttCodec.BodyRoundTrip | src/mqtt.rs:577-695 | Every type's well-formed body decodes to its packet. |
| MqttCodec.FrameRoundTrip | src/mqtt.rs:577-602 | The fixed header of an encoded packet frames exactly its body, whatever follows. |
| MqttCodec.RoundTrip | src/mqtt.rs:577-695 | Decoding an encoded well-formed packet with anything after it gives the packet and exactly the encoded length. |
| MqttCodec.RoundTripExactly | src/mqtt.rs:577-695 | The round trip holds for exactly the well-formed packets: short fields, text where text is due, a packet id just at QoS 1. |
| MqttCodec.DecodeConsumes | src/mqtt.rs:577-630 | A decoded packet took at least two octets and no more than there were. |
| MqttCodec.DecodeStable | src/mqtt.rs:577-630 | Appending octets changes neither a decoded packet nor an error. |
| MqttCodec.DecodeCut | src/mqtt.rs:577-630 | Every proper prefix of a packet asks for more. |
| MqttCodec.PublishRewrites | src/mqtt.rs:806-851 | What a PUBLISH was decoded from is exactly its own encoding, flags included. |
| MqttCodec.FiltersRewrite | src/mqtt.rs:860-889 | What a filter list was decoded from is exactly its own encoding, and its topics are text. |
| MqttCodec.BodyNormalises | src/mqtt.rs:577-695 | Every accepted body re-encodes under the same type: exactly for PUBLISH, SUBSCRIBE and SUBACK. |
| MqttCodec.NormalForm | src/mqtt.rs:577-695 | Whatever a packet was decoded from, overlong varints and ignored octets included, it is well-formed, encodes, and decodes to itself again. |
| MqttText.TextExactly | src/mqtt.rs:929-934 | Octets are text exactly when they encode some sequence of Unicode scalar values. |
| MqttWire.VarintWire | src/mqtt.rs:1012-1024 | A remaining length takes one octet per seven bits, least significant first, the top bit set on all but the last. |
| MqttWire.EncodeFailsExactly | src/mqtt.rs:685-688 | Encoding fails exactly for a body of more than 268435455 octets, and names its length. |
| MqttWire.ConnectBits | src/mqtt.rs:704-781 | Whatever body decodes as a CONNECT, the level, the flags and the keep alive follow the name, whose length is in front: clean session is bit 1, will bit 2, its QoS bits 3 and 4, its retain bit 5, password bit 6, username bit 7. |
| MqttWire.FirstOctetIs | src/mqtt.rs:658-682 | The type nibble of each of the nine packets, and of a PUBLISH retain in bit 0, QoS in bits 1 and 2, dup in bit 3. |
| MqttWire.ConnectWire | src/mqtt.rs:784-803 | A CONNECT is "MQTT" with its length, the level, the flags, the keep alive, and then client identifier, will topic and message, username and password, each with its length and only where there is one. |
| MqttWire.ConnectBegins | src/mqtt.rs:784-788 | Every CONNECT body begins with the octets 0, 4, "MQTT". |
| MqttWire.PublishWire | src/mqtt.rs:843-851 | A PUBLISH is its topic with its length, at QoS 1 its packet identifier, and the payload. |
| MqttWire.SubscribeWire | src/mqtt.rs:881-889 | A SUBSCRIBE is its packet identifier and each filter with its length and options. |
| MqttWire.ShortPackets | src/mqtt.rs:658-695 | CONNACK, PUBACK, SUBACK, PINGREQ, PINGRESP and DISCONNECT, octet for octet. |
| MqttWire.KindsExactly | src/mqtt.rs:602-628 | The type nibble decides the packet; any but the nine is refused by its number. |
| MqttWire.HighQosIsRefused | src/mqtt.rs:402-430 | A PUBLISH with the upper QoS bit is refused. |
| MqttWire.FromDeviceExactly | src/mqtt.rs:641-651 | From the device every well-formed packet is delivered, whatever follows it, but CONNACK, SUBACK and PINGRESP, which are refused by their types. |
| MqttWire.DeviceRefusesOnly | src/mqtt.rs:641-651 | On any buffer the device's side differs from the other only there. |
| MqttStream.PacketStream.NextPacket | src/mqtt.rs:1094-1153 | One call delivers the next packet, the first error, the end, a failed read, or nothing if it is dropped while it waits; the buffer and the unread input afterwards are as specified. |
| MqttStream.NextConserves | src/mqtt.rs:1094-1117 | Octets leave only with a delivered packet, and then exactly that packet's. |
| MqttStream.AbandonLosesNothing | src/mqtt.rs:1094-1117 | Dropping a call at its read loses no octets, and the next call goes on as if it had not been dropped. |
| MqttStream.ScheduleInvisible | src/mqtt.rs:1094-1117 | However calls are dropped, what they delivered followed by what is still to come is the undisturbed session. |
| MqttStream.NextIsDecode | src/mqtt.rs:1094-1117 | While the leading packet is decided within the limit, a call delivers what decoding the whole stream at once would, and never reports it too large. |
| MqttStream.SinglyTooLarge | src/mqtt.rs:1094-1117 | Read one octet at a time, a stream that does not fit ends in the size error. |
| MqttStream.ChunkingInvisibleExactly | src/mqtt.rs:1094-1117 | Every split of a stream into reads is delivered alike, and as if it were in one piece, exactly when the stream fits. |
| MqttStream.FitsByAnnouncement | src/mqtt.rs:1094-1117 | For limits of at least four, a stream fits exactly when no packet announces more than one octet over the limit and then sends more than the limit. |
| MqttStream.BufferBounded | src/mqtt.rs:1094-1117 | The buffer, and any packet delivered, never exceeds the limit by more than one read; the size error names a length over the limit. |
| MqttSplits.SplitsAgreeExactly | src/mqtt.rs:1094-1117 | All splits of a stream into reads are delivered alike exactly when, at every packet boundary, the packet is decided within the limit or the stream ends with the octet that goes over it. |
| MqttSplits.TwoOverTheLimit | src/mqtt.rs:1094-1117 | Any packet of two octets over the limit is delivered if it comes in one read and refused if it comes octet by octet. |
| MqttSplits.EighteenUnderSixteen | src/mqtt.rs:1094-1117 | So it is with one PUBLISH of 18 octets under a limit of 16. |
| Relay.CloudCommands.Remember | src/driver/arbiter.rs:203-215 | A relayed command joins the queue exactly if the device will answer it, after what has expired is gone. |
| Relay.CloudCommands.Claim | src/driver/arbiter.rs:218-236 | An answer is attributed as the whole history says, and consumes the command it was attributed to. |
| Relay.CloudCommands.Expire | src/driver/arbiter.rs:239-242 | A command stays exactly if it was there and is under 15 s old, and those that stay keep their order. |
| Relay.RunSound | src/driver/arbiter.rs:203-242 | On every run attribution is a one-to-one assignment of answers to earlier commands that cover them and are under 15 s old; every remembered command is outstanding, claimed or expired, and only one of these. |
| Relay.CommandsConserved | src/driver/arbiter.rs:203-242 | Remembered commands are as many as claimed, expired and outstanding ones together. |
| Relay.QueueInOrder | src/driver/arbiter.rs:203-242 | While times do not decrease, the queue is in time order. |
| Relay.ExpiryDropsPrefix | src/driver/arbiter.rs:239-242 | On such a queue expiring drops exactly a prefix. |
| Relay.OutstandingExactly | src/driver/arbiter.rs:203-242 | What an answer can claim is exactly what was sent, is unclaimed and is under 15 s old. |
| Relay.ClaimsOldest | src/driver/arbiter.rs:218-236 | An answer claims the oldest command waiting for it, and none exactly when none waits; no other claim changes. |
| Relay.Exchange | src/driver/arbiter.rs:218-236 | Any assignment that agrees with the relay up to an answer can be changed to agree on that answer too without losing one. |
| Relay.OldestFirstOptimal | src/driver/arbiter.rs:218-236 | Over ranges that do not overlap, no one-to-one assignment that respects cover and window attributes more answers than the relay does. |
| Relay.OldestFirstWastes | src/driver/arbiter.rs:218-236 | Two different ranges that share a register have a run on which the relay attributes one answer of two. |
| Relay.OptimalExactlyWhenSeparate | src/driver/arbiter.rs:203-242 | The relay is optimal on every run over a set of ranges exactly when no two different ones share a register. |
| Relay.SuitsIsTimely | src/driver/arbiter.rs:203-242 | An answer suits a command exactly if, by the two frames' kinds and registers, it answers it, and comes less than 15000 ms after it. |
| Relay.AttributedExactly | src/driver/arbiter.rs:203-242 | Over every run whose times do not decrease, each frame is attributed to the oldest command sent less than 15000 ms before that it answers and that no frame was given, told from the frames alone. |
| Relay.ForwardedExactly | src/driver/arbiter.rs:444-458 | Everything that answers no command goes up, under `All` everything does, and under `CloudOnly` an answer exactly when the frames attribute it to a command. |
| Relay.CarriedDownExactly | src/driver/arbiter.rs:413-442 | Full mode carries everything down and an observer nothing; otherwise settings writes, reads and, with pairing open, a write of register 122 are carried, and each refusal has its reason. |
| Relay.ReadIsAnswered | src/driver/arbiter.rs:203-242 | A cloud's read is answered: the answer is attributed to it and forwarded. |
| Relay.ModesNest | src/driver/arbiter.rs:310-458 | What a mode carries, every mode with more authority carries; opening accessory pairing changes the decision for one register in one mode. |
| Registry.IdsNeverReused | src/control.rs:909-936 | Later registrations get greater session ids, all below the counter. |
| Registry.IssuedExactly | src/control.rs:920-936 | The ids issued are 0 to 2^64 - 2 in order; after that a registration gets none. |
| Registry.RegistryIsHistory | src/control.rs:909-936 | Under every interleaving a device has an entry exactly when its latest successful registration was not dropped, and the entry is that registration's. |
| Registry.DisplacedIsPast | src/control.rs:909-936 | A displaced session never serves any device again. |
| Registry.StoppedExactlyOnce | src/control.rs:944-947 | A displaced session is told to stop once, when the call that displaced it gets there; nobody else ever is, a serving session least of all. |
| Registry.WatchCanGoStale | src/control.rs:965-976 | A run of two registrations whose snapshots are sent in the other order ends quiet with one device fewer watched than registered. |
| Registry.RunSnapshots | src/control.rs:965-976 | Every snapshot, watched or still to be sent, is the registry as it was at the step that took it. |
| Registry.WatchedExactly | src/control.rs:965-976 | At every point of every run the watched set is the registry exactly when every device is served by the session that served it when the snapshot sent last was taken, all read from the steps. |
| Registry.WatchedWhenAtOnce | src/control.rs:965-976 | A run that sends each snapshot as soon as it is taken ends with the registry watched whenever it ends with no call under way. |
| Registry.SessionRegistry.Enter | src/control.rs:920-936 | The locked section issues the next id, or none once they are used up, and reports whom it displaced. |
| Registry.SessionRegistry.Leave | src/control.rs:1025-1040 | A drop removes the entry only if it is still its own. |
| Registry.SessionRegistry.Publish | src/control.rs:965-976 | A sent snapshot replaces what is watched, and wakes the watchers exactly if it differs. |
| Registry.SessionRegistry.RegisterAlone | src/control.rs:909-954 | An uninterrupted registration serves its device and is being watched. |
| Links.LinkAllExactly | src/homeassistant/publisher.rs:225-286 | Exactly the devices that need a link get one, to the session serving them; every other link is left alone. |
| Links.ConnectedAreLinked | src/homeassistant/publisher.rs:225-286 | Every connected device that is registered with an open request channel ends up linked to its current session. |
| Links.FarewellExactly | src/homeassistant/publisher.rs:293-304 | A farewell from a replaced session changes and publishes nothing; any other reports the device gone, and links it again exactly if it can be. |
| Links.RunSound | src/homeassistant/publisher.rs:225-304 | In every reachable state, with the registry moving while the publisher walks the connected set, there is at most one unaborted link per device, the recorded one; a recorded link that finished has its farewell on the way. |
| Links.LinksWhatWasAsked | src/homeassistant/publisher.rs:225-286 | However the registry moves between being asked and the answer being acted on, the device ends up linked to the session it named if that still takes requests, and no other device's link changes. |
| Links.WalkIsLinkAll | src/homeassistant/publisher.rs:225-286 | A walk that nothing interrupts links as `link_devices` in one go. |
| Links.OneThingAtATime | src/homeassistant/publisher.rs:164-304 | While a walk is under way no other begins, and a link is started only for a device the registry was asked about. |
| Links.WalksExactly | src/homeassistant/publisher.rs:164-304 | Woken while idle, the publisher links the connected set as registered; hearing a farewell, it reports and forgets the device first, unless a replaced session's link sent it. |
| Links.AroundExactly | src/homeassistant/publisher.rs:164-304 | What the registry, the sessions and the link tasks do around the publisher: registering, leaving, closing, and finishing with a farewell. |
| Links.HeardIsFinished | src/homeassistant/publisher.rs:293-304 | A farewell that is acted on is never about a device with a running link. |
| Links.Publisher.LinkDevices | src/homeassistant/publisher.rs:225-286 | With the registry standing still, the loop over the snapshot links, relinks and aborts as specified. |
| Links.Publisher.SessionEnded | src/homeassistant/publisher.rs:293-304 | The method reports, forgets and relinks as specified. |
| Entities.InCatalogue | src/homeassistant/entity.rs:887-938 | An entity is in a catalogue exactly by one of four ways: an unclaimed reading, an exposed setting, a fixed entity, an action of a bridge that writes. |
| EntityFacts.ReadingIsInExactly | src/homeassistant/entity.rs:887-1004 | A reading that becomes an entity and that no exposed setting claims is in the catalogue exactly if its name means no pack or one the device has. |
| EntityFacts.NoFurtherPack | src/homeassistant/entity.rs:999-1004 | Nothing but a setting's entity is of a pack beyond those the device has. |
| EntityFacts.PackIsNumbered | src/homeassistant/entity.rs:809-813 | "battery" followed by some digits means the pack of that number, whatever follows the digits, if it is one of 16 bits, and no pack otherwise. |
| EntityFacts.UnnumberedIsNoPack | src/homeassistant/entity.rs:809-813 | No other name means a pack. |
| EntityFacts.ControlsExactly | src/homeassistant/entity.rs:296-332 | Each kind of control has its component and shape, and an entity is gated on the setting that supersedes it. |
| EntityFacts.SettingExactly | src/homeassistant/entity.rs:891-915 | A setting keeps them where it may be written and is a plain sensor where not, read from telemetry exactly if the device reports a measurement of its name. |
| EntityFacts.ReadingExactly | src/homeassistant/entity.rs:335-387 | Which measurements become no entity, which are conditions, which are lists of faults, and on what they are gated. |
| EntityFacts.AlwaysExactly | src/homeassistant/entity.rs:922-932 | The twelve entities every device has. |
| EntityFacts.ActionsExactly | src/homeassistant/entity.rs:933-937 | The four controls only a bridge that writes has. |
| EntityFacts.RetiredExactly | src/homeassistant/entity.rs:957-963 | The two retired topics. |
| EntityFacts.EverythingIs | src/homeassistant/entity.rs:972-997 | The sweep is the catalogue of all slots and four packs, with all writes permitted and with none. |
| EntityFacts.SlotsClamp | src/growatt/driver.rs:65-67 | However many slots are asked for, no more than there are can be exposed. |
| EntityFacts.WritableExactly | src/homeassistant/entity.rs:791-842 | Which shapes take commands, and what becomes of one that may not. |
| EntityFacts.AllowsExactly | src/homeassistant/command.rs:56-61 | Writing has to be permitted, and for power plus on its own too. |
| Entities.SettingPlace | src/homeassistant/entity.rs:296-332 | A setting keeps its own component and is writable exactly where it may be written, and is a sensor otherwise. |
| Entities.EverythingCoversExactly | src/homeassistant/entity.rs:972-1004 | For every bound on the number of battery packs, `everything` has every configuration's topics exactly when it anticipates every reading any of them publishes. |
| Entities.FourPacksAnticipated | src/homeassistant/entity.rs:972-1004 | Up to four packs it does, if every reading that shares its name with a setting of the widest configuration is a plain sensor. |
| Entities.ClaimingUncovered | src/homeassistant/entity.rs:972-997 | A driver whose meter condition is also a setting of a slot has a topic that `everything` lacks. |
| Entities.FivePacksUncovered | src/homeassistant/entity.rs:972-1004 | So has a driver with a reading of a fifth pack. |
| Entities.KeysDistinct | src/homeassistant/entity.rs:887-938 | No catalogue has a key twice, so Home Assistant drops no entity as a duplicate. |
| Commands.OfferedIsHonouredExactly | src/homeassistant/command.rs:171-225 | A writable entity's name is neither unknown nor refused under its catalogue's permissions, exactly when the driver backs it. |
| Commands.SmallRestartUnbacked | src/homeassistant/command.rs:171-225 | A driver without a restart action has its restart button offered, and answered as unknown. |
| Commands.WithdrawnIsRefused | src/homeassistant/command.rs:171-225 | What the permissions withdraw is refused whatever the value, if it is a name at all. |
| Commands.AcceptedIsAllowed | src/homeassistant/command.rs:171-322 | Whatever is accepted was permitted, is within its register's domain, and is no destructive action. |
| Commands.SettingExactly | src/homeassistant/command.rs:171-225 | A field naming a setting sets its register to what the value means for its control, an integer itself on a number or a switch, a flag one or nought on a switch, a text what it parses to, exactly if that is permitted and in the register's domain; the refusals are told apart exactly. |
| Commands.ActionExactly | src/homeassistant/command.rs:298-322 | A field naming an action writes the text that triggers it to its register, exactly if it is permitted and not destructive. |
| Commands.SpecialExactly | src/homeassistant/command.rs:228-290 | A meter reading is a signed number of 32 bits, withdrawing it is a reading of nought that is not valid, and pairing takes no value. |
| Commands.UnknownExactly | src/homeassistant/command.rs:171-185 | Any other name is unknown. |
| Commands.UnexposedIsHonoured | src/homeassistant/command.rs:171-225 | The converse fails: a setting of an unexposed slot is offered by no control and honoured all the same. |
| Commands.AllOrNothing | src/homeassistant/command.rs:153-168 | What is not an object is malformed and an object without fields is empty; any other payload yields one change per field in order, or the error of its first field that cannot be honoured. |
| StatePayload.TelemetryExactly | src/homeassistant/state.rs:57-82 | A frame's object carries exactly the fields an entity reads that the frame, or the battery's rest, has something to say about. |
| StatePayload.TelemetryValues | src/homeassistant/state.rs:57-80 | Of each field the object says the verdict or the voltage of the last rest, the difference of the extreme cells' raw voltages, or the text of its last reading. |
| StatePayload.SettingsExactly | src/homeassistant/state.rs:83-91 | The settings object carries exactly the fields an entity reads that the device has answered for. |
| StatePayload.SettingsValues | src/homeassistant/state.rs:83-91 | Of each it says the text of the last answer. |
| StatePayload.ConfigExactly | src/homeassistant/state.rs:132-158 | The configuration object carries exactly the fields an entity reads that a named entry says something of. |
| StatePayload.ConfigValues | src/homeassistant/state.rs:132-158 | Of each it says what the last such entry does. |
| Frames.NamedIsFirst | src/homeassistant/publisher.rs:1016-1021 | Of several readings of a name, the first is meant. |
| Publishing.DeliveredAt | src/homeassistant/broker.rs:293-305 | Topic by topic, the broker retains the last message the queue took for it. |
| Gates.BuildIndex | src/homeassistant/publisher.rs:409-428 | The loop builds the catalogue's index. |
| Gates.IndexAgrees | src/homeassistant/publisher.rs:398-428 | Looking a value up in the index gives what asking every entity about it would, in the same order. |
| Gates.UnsharedAgrees | src/homeassistant/publisher.rs:409-428 | The index lists exactly the settings that cannot share the settings object. |
| Gates.OpenExactly | src/homeassistant/publisher.rs:896-922 | A gate on a setting is open exactly while the setting's last answer is none of the values that close it, one on a reading exactly while the reading's last register is not nought, and neither is anything before. |
| Gates.UnsharedIs | src/homeassistant/entity.rs:828-832 | Which settings have a topic of their own. |
| Gates.SaysAre | src/homeassistant/publisher.rs:858-922 | The walk over the values asks each entity's gate the same questions in the same order as the entity itself would. |
| Gates.Told | src/homeassistant/publisher.rs:888-895 | For every key the record ends at the last answer, and what is published is what was news. |
| Gates.NewsIsNews | src/homeassistant/publisher.rs:888-895 | What is published never repeats what was last recorded or published, and ends where the answers end. |
| Gates.PassIsAsking | src/homeassistant/publisher.rs:873-922 | A pass leaves each entity's record at its gate's answer to the last value that decides it, and publishes exactly the answers that changed it. |
| Gates.PassAnswers | src/homeassistant/publisher.rs:873-922 | The same for any key, with or without an entity or a gate. |
| Gates.OthersUntouched | src/homeassistant/publisher.rs:873-922 | Nothing is recorded or published for a key no gated entity has. |
| Gates.OneValueOneMessage | src/homeassistant/publisher.rs:858-922 | With each value named once, a gate gets one message if its answer is news, and none if it is not or if its value has not arrived. |
| Discovery.Retractions | src/homeassistant/publisher.rs:693-719 | The two loops withdraw exactly what was announced or is retired and is not announced now. |
| Discovery.SweptExactly | src/homeassistant/publisher.rs:693-719 | A topic is withdrawn exactly if it was announced or is retired, and is not kept. |
| Discovery.PassSays | src/homeassistant/publisher.rs:632-666 | Every message of a pass says what the broker should hold on its topic, so none is both withdrawn and announced. |
| Discovery.PassCovers | src/homeassistant/publisher.rs:632-684 | A pass speaks of exactly the topics that are wanted or might be left over. |
| Discovery.ShowsExactly | src/homeassistant/publisher.rs:604-666 | Showing a catalogue means holding each of its entities' descriptions and no other discovery topic. |
| Discovery.PassShowsExactly | src/homeassistant/publisher.rs:609-719 | After a pass the broker shows exactly the catalogue, exactly when every message the queue refused was one the broker could spare. |
| DeviceLink.UnsharedExactly | src/homeassistant/publisher.rs:838-856 | A setting's own topic is told what the device answered for it, exactly for the settings that have one, are announced and are answered. |
| LinkSays.PresenceExactly | src/homeassistant/publisher.rs:736-754 | Which messages say presence: availability, status, the stamp and the firmware version, on their topics and with their values. |
| LinkSays.SettingsAndConfig | src/homeassistant/publisher.rs:789-825 | The settings and configuration objects go to their topics exactly if there is anything in them and a broker. |
| LinkSays.FrameSays | src/homeassistant/publisher.rs:542-565 | A frame that finds a broker is published: the device is available, the stamp is the frame's, and its object is offered unless empty. |
| LinkSays.UnheardFrame | src/homeassistant/publisher.rs:542-565 | One that finds none stamps the link, makes it present and is seen by the resting tracker, and says nothing. |
| LinkSays.ConnectionSays | src/homeassistant/publisher.rs:508-526 | A connection is told presence as it is, the settings, and the last frame again if it arrived less than the limit ago. |
| LinkSays.SettingsChangeSays | src/homeassistant/publisher.rs:532-536 | A settings change is told on the settings topic. |
| LinkSays.IdentitySays | src/homeassistant/publisher.rs:479-486 | An identity report is told on the configuration topic. |
| LinkSays.SilenceSays | src/homeassistant/publisher.rs:586-597 | A device that falls silent is told absent on both topics, and nothing else about its link changes. |
| DeviceLink.Link.Withdraw | src/homeassistant/publisher.rs:669-684 | What was announced is forgotten and its leftovers are withdrawn; the first announcement reconciles against everything and the retired list. |
| DeviceLink.Link.Announce | src/homeassistant/publisher.rs:609-666 | Discovery is published, withdrawals first, unless the broker was never reached or nothing has changed. |
| DeviceLink.Link.PublishGates | src/homeassistant/publisher.rs:873-922 | The nested walk over settings and then readings records and publishes what asking entity by entity would. |
| DeviceLink.Link.Republish | src/homeassistant/publisher.rs:508-526 | For a new connection everything is announced afresh, then presence, the settings on their topics, the gates' news, and state if it is recent; gate records are kept. |
| DeviceLink.Link.TelemetryArrived | src/homeassistant/publisher.rs:542-565 | A frame is stamped, announced for, reported present with its stamp and the firmware version, shown to the resting tracker, published unless nothing of it is read, and asked about gates, in that order. |
| DeviceLink.Link.SettingsChanged | src/homeassistant/publisher.rs:532-536 | The settings object is published unless empty, then each setting with a topic of its own, then the gates' news. |
| DeviceLink.Link.PublishUnshared | src/homeassistant/publisher.rs:838-856 | The loop offers each answered setting that has a topic of its own, in the order the cache has them. |
| DeviceLink.Link.IdentityChanged | src/homeassistant/publisher.rs:479-486 | A new identity report is announced for, and its named entries that an entity reads are published. |
| DeviceLink.Link.WentQuiet | src/homeassistant/publisher.rs:586-597 | A present device is reported absent, once. |
| DeviceLink.Link.PublishPresence | src/homeassistant/publisher.rs:736-754 | Availability and status are offered with the link's own presence, then the last frame's stamp and the firmware version where there are any, if there is a broker. |
| LinkRuns.AnnouncingShows | src/homeassistant/publisher.rs:609-666 | With a queue that takes everything, an announcement to a broker the link agrees with leaves it showing exactly the catalogue. |
| LinkRuns.RunReconciled | src/homeassistant/publisher.rs:508-666 | For a driver whose sweep covers every configuration of so many packs, over every run of restarts, configurations, connections and losses in which the device reports no more packs and the queue takes everything: every event that announces leaves the broker's discovery topics exactly the current catalogue's with the current device block, unless the broker has forgotten something since the last connection the link handled. |
| LinkRuns.RunFaithful | src/homeassistant/publisher.rs:609-666 | Over every run, whatever the queue refuses, what the link remembers of its announcement is that catalogue's entities, their index and their fields. |
| LinkRuns.PacksExactly | src/homeassistant/publisher.rs:726-733 | The packs are what the frame's first reading of that name says, and one without it. |
| LinkRuns.RunHasNoAbsentPack | src/homeassistant/publisher.rs:609-666 | Over the same runs, after such an event the broker has no discovery topic of a pack beyond those the device has, but for what an exposed setting is named. |
| LinkRuns.RunForeseen | src/homeassistant/publisher.rs:669-684 | For such a driver, over every run, whatever the queue refuses and the broker forgets, the broker never holds a discovery topic the next connection would not sweep. |
| LinkRuns.AlwaysReconcilesExactly | src/homeassistant/publisher.rs:669-719 | Every run from an empty broker whose queue takes everything reconciles, exactly when `everything` and the retired list sweep every configuration's topics. |
| Drops.ConnectionMakesGoodExactly | src/homeassistant/publisher.rs:508-526 | After any run, a new connection leaves the broker exact, exactly when every discovery message refused then could be spared. |
| Drops.UnsaidStaysUnsaid | src/homeassistant/publisher.rs:609-630 | Until a connection or a change of what there is to describe, what the queue refused stays unsaid: announcing again says nothing. |
| Drops.OneRefused | src/homeassistant/publisher.rs:508-526 | A first connection of which the queue refuses the last description leaves the broker inexact, a new identity report does not help, and the next connection does. |
| Presence.RunPresenceShown | src/homeassistant/publisher.rs:508-602 | Over every run in which the queue takes everything, once the broker is reached its availability and status are the link's presence and its stamp is the last frame's, unless it has forgotten something since the last connection the link handled. |
| Presence.RunWatching | src/homeassistant/publisher.rs:542-602 | The link's arrival time is the last frame's, and a device not reported present has been quiet for the limit since its last frame. |
| Presence.ArmedExactlyWhilePresent | src/homeassistant/publisher.rs:575-580 | The deadline is armed exactly while the device is reported present, for the last frame plus the limit. |
| Presence.AbsentOnlyWhenQuiet | src/homeassistant/publisher.rs:586-597 | A link reports its device absent exactly when the timer goes off, at least the limit after the last frame. |
| Presence.OneAbsencePerSilence | src/homeassistant/publisher.rs:567-597 | Between two reports of absence a frame was handled. |
| Presence.StateOnlyWhilePresent | src/homeassistant/publisher.rs:508-565 | State is the current frame's object, and is published only on a frame's arrival or, on a connection, while the last frame is younger than the limit; never for a device reported absent. |
| GateRuns.AskedExactly | src/homeassistant/publisher.rs:873-922 | Whatever an event makes the link ask, each key's record ends at its gate's last answer, and exactly the answers that are news are published. |
| GateRuns.RecordIsLastAnswer | src/homeassistant/publisher.rs:873-922 | Over every run, whatever the queue refuses and the broker forgets, a gate's record is the last answer the link got: its own gate on the last value that decides it. |
| GateRuns.GateMirroredExactly | src/homeassistant/publisher.rs:508-526 | After any event of which the queue takes everything, the broker mirrors a gate's record exactly when nothing was ever answered, or an answer now is news, or it did before and has not forgotten it now; a new connection is no exception. |
| GateRuns.RunMirroredExactly | src/homeassistant/publisher.rs:508-565 | Over every run in which the queue takes everything, the broker mirrors a gate's record exactly when the link has had no answer or its last news came after the broker last forgot the topic. |
| GateRuns.ForgottenStaysForgotten | src/homeassistant/publisher.rs:508-526 | For any driver and any gate a session answers once, the run connected, frame, topic forgotten, connected ends with the broker not mirroring the record. |
| GateRuns.GateNotToldAgain | src/homeassistant/publisher.rs:508-526 | So it does with the withdraw button of a metered device. |
| Recording.EncodeRecord | src/record.rs:189-197 | The buffer is filled with the header and the payload. |
| Recording.RecordRoundTripExactly | src/record.rs:189-222 | A record comes back, with anything after it left over, exactly when its payload's length fits four octets. |
| Recording.CutRecordIsNothing | src/record.rs:203-222 | A record cut short decodes as nothing. |
| Recording.DecodedRewrites | src/record.rs:189-222 | What a record was decoded from is exactly its own encoding. |
| Recording.ReadAll | src/record.rs:443-454 | The reading loop gives every record up to the first that is not complete. |
| Recording.CutGivesWhole | src/record.rs:189-222 | Records written one after the other and cut at any octet give back exactly those that are whole. |
| Recording.KeepsNewest | src/record.rs:360-419 | After any writes the rotated and the live file are the newest records, whole: all of them or more than the cap; neither exceeds the cap unless it is one oversize record. |
| Recording.ReadBackIsNewest | src/record.rs:360-419 | Read back, the two files give exactly the newest records written. |
| Recording.AlwaysSuffix | src/record.rs:360-419 | Whatever the files held before, they end what they held followed by what was written. |
| Recording.NamesApart | src/record.rs:143-150 | No stream's file, rotated or not, is another's. |
| Recording.StreamsExactly | src/record.rs:117-150 | Each stream's octet and the names of its two files. |
| Recording.RecordWire | src/record.rs:189-197 | A record is "HBR1", the stream's octet, the microseconds in eight octets and the length in four, most significant first, and the payload. |
| Recording.Writer.Open | src/record.rs:394-402 | Opening learns what the file already holds, and creates it if it is not there. |
| Recording.Writer.Rotate | src/record.rs:415-419 | The live file becomes the rotated one. |
| Recording.RestartAppends | src/record.rs:360-402 | A writer that starts on a file that is there appends to it while it fits under the cap. |
| Recording.AppendedRead | src/record.rs:203-222 | What was read of a file is still read after something is appended, and then reading goes on in what it left. |
| Recording.ReadBackExactlyWhenWhole | src/record.rs:203-222 | Whatever records are appended to a file are read back after what it held, exactly when it ended with a whole record. |
| Recording.OneOctetHidesAll | src/record.rs:203-222 | After the first octet of a record nothing appended is read back. |
| Recording.FailureKeepsSuffix | src/record.rs:330-419 | A write that fails, wherever it does, leaves the two files ending what they held followed by as much of the record as was written. |
| Recording.Writer.Ready | src/record.rs:360-385 | The stream's file is opened if it is not, moved aside if it would exceed the cap, and left as it is where either fails. |
| Recording.Writer.Write | src/record.rs:360-412 | One record is appended to its own stream after rotating if it would exceed the cap, or as far as that goes; no other stream's files change. |
| Recording.Writer.Run | src/record.rs:330-357 | Until a write fails, each stream's files are as if its own records had been written alone and every record is counted; after that nothing is written. |
| Resting.RestWatch.Observe | src/homeassistant/rest.rs:92-136 | One frame moves the idle clock and the sample as specified, and returns the sample. |
| Resting.SampleIsHistory | src/homeassistant/rest.rs:86-136 | The sample is that of the latest call with both readings that ended an unbroken idle run of five minutes, and is absent exactly when there is none. |
| Resting.IdleExactly | src/homeassistant/rest.rs:99-105 | A frame is idle exactly if its first battery power reading is a number of at most five watts either way. |
| Resting.TakenExactly | src/homeassistant/rest.rs:107-115 | A sample is the lowest cell's raw voltage and the verdict on the raw state of charge, and takes both. |
| Resting.CredibleExactly | src/homeassistant/rest.rs:141-157 | For which voltages and claims the verdict is credible, incredible or none, in millivolts and percent. |
| Resting.SettledExactly | src/homeassistant/rest.rs:92-119 | The unbroken idle run that settles a call is of 300000 ms or more. |
| Resting.HigherVoltageNeverContradicts | src/homeassistant/rest.rs:141-157 | A higher resting voltage never speaks for a claim of empty and never against any other claim. |

## Left out

- TLS, trust stores, sockets, the HTTP interface, the command line, logging and firmware download are not part of this model.
- The tokio runtime is not part of this model: channels and `select!` are steps in any order, and nothing is claimed about fairness or when a step happens.
- `PacketStream::send` is not part of this model.
- Lock poisoning in the registry, and the sorted order of its snapshots, which are maps here.
- Integer widths: lengths, sizes and times are unbounded; the saturating additions in the reader, the framer, the file sizes and the deadline differ only beyond 2^64. Session ids and 16-bit and 32-bit prefixes have their widths.
- The order in which a `HashMap` is walked never matters to what is modelled.
- Templates, labels, units, device classes and JSON text: an entity keeps its key, component, source, gate and what its control accepts; a device block is one opaque value, and an object's fields are rendered text, computed numbers and verdicts, and the status object's constant bridge version is not told apart.
- Which texts parse to numbers, and what a configuration value reads like: each reading, setting and entry carries its text and what it parses to.
- How a driver assembles a firmware version from report and frame: the session carries the outcome.
- What other publishers write to a device's topics, and the messages of a bridge that serves the same device.
- Growatt registers, frames and checksums: a driver is an abstract catalogue. `Monotone` says that exposing more slots only adds settings, and `NamedApart` that its names are distinct from each other and from the fixed entities'; `Entities.SmallFits` gives a driver that meets both.
- How times and weekdays are parsed: an arbitrary partial function from text to a raw value.
- `Change::also_read` and carrying a change out: the session's business.
- Links.RunSound: `task.abort()` takes effect at once, and finding a request channel open and starting a link are one step.
- Recording.Writer.Run: does not model records dropped by a full queue before they reach the writer.
- Resting.SampleIsHistory: power is a real number; a text that parses to no finite number is treated as no figure, which the source treats alike.
- Relay.ModesNest: states how the modes compare; the decisions themselves are one table each in the source and are not restated.
