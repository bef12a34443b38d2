# SMS gateway service: verification model

A Dafny 4.11 model of the Rust service under `service/src`: the modem driver, the text
layer under it, the bounded trackers beside it and the life of an outbound message, with
proofs of what they promise over every input and every run.

Check it with `dafny verify dfyconfig.toml`.

## What is modelled

**The line.** `Frames` names every frame the driver writes, with its bytes. `ModemSide` is
the modem's reader of those bytes, written from the syntax of the commands: what it is
asked, the settings it is left under, and the short message a header and a body come to
under them. `LineTrace` has every step seen on the line and four monitors folded over the
trace: text entry, the character set in force, the submissions, and the inbound messages
read, stored and deleted. A monitor keeps a fault once it has seen one, so "no fault at the
end" means none ever. Three more folds record what cannot go wrong but
decides what happens next: the frames written (`SideTrace`), the announcements heeded
(`Announcements`), and the modem's readiness as the status refreshes show it (`Readiness`,
`ReadinessTheorems`).

**The driver.** `Transport` (class `Wire`), `Sending`, `Inbound`, `Setup`, `Requests`,
`Session` and `Manager` follow `modem/transport.rs`, `modem/session.rs` and `modem/mod.rs`
method by method. What the modem does is an arbitrary finite script with one event for each
operation: a line, a deadline passed, or the port gone. The script runs out into a lost port,
and may be cut anywhere, so every statement holds at every moment of every run. A session
leaves a record of its visits and the requests it served, tied to the trace
(`Session.Faithful`); the manager's run is a chain of such records with nothing that counts
between them.

**What the trace means.** `LineSafety`, `Submissions`, `ModemSafety` and `InboundSafety` say
what a faultless line means position by position, the last two by the bytes as the modem
reads them; `SendTheorems` and `DeliveryTheorems` what a caller told `Sent` may conclude;
`AnnouncementTheorems`, `VisitTheorems`, `MissedAnnouncements` and `StrandedAnnouncements`
which announced messages are visited. `Scenarios` plays known scripts for the last two.

**The text layer.** `Greedy` and `Segmentation` (with the ASCII fast path), `Alphabet` (the
standard's septets and what fits in a message), `Text`, `Ucs2`, `Utf8`, `Framing`,
`Protocol`, `Cmgr`, and `SerialBuffer` for the byte buffer below the lines.

**The trackers.** `Lockout` and `FailureTracker` (both trackers of the source are one class
at two policies), `RateLimit`, `AdminSessions`.

**Outbound rows and the schema.** `Lifecycle` interleaves dispatch tasks and the reaper as
single steps over a table; `Migrations` runs the migration loop through crashes.

## Assumptions

- Clocks do not go backwards, and adding a timeout to an instant does not overflow.
- Once an operation on a connection fails, later ones on that connection fail too.
- A reply arrives inside its own exchange or never; the modem does not echo.
- Callers' raw commands open no text entry, read or delete no stored message, and neither
  select a character set nor reset the modem, which would select one. `Frames.Ordinary` stands
  for this: one line that mentions none of the seven verbs that do the former, and neither
  `ATZ`, `&F`, `+CFUN` nor `+CRESET`, in any case and anywhere in a chain of commands.
- The modem takes the payload of a GSM-7 submission for UTF-8, as the driver writes it.
  `Framing.BytewiseCarries`: this matters exactly for parts that are not ASCII.
- For `InboundSafety` only: the modem forgets a message only when the bytes it is sent ask it
  to delete its index, and the answer to a read, brought to an `OK`, shows what it holds at
  the index those bytes asked for.
- For `Lifecycle.OutboundSafety` and `OutcomeIsTheReply` only: a dispatch ends within 300 s
  of its row's creation, and status writes succeed. `SlowDispatchSendsTwice` and
  `FailedWriteSendsTwice` show that neither can be dropped.

## Where the code and its comments part

- `service/src/modem/protocol.rs:254-257` describes UCS2 as data-coding bits 3-2 being `01`;
  the code tests them for `10` (8), and so does the model.
- `service/src/ratelimit.rs:91-93` says idle eviction never affects a decision. It does when
  the limit is 0 or the window exceeds the hour; `RateLimit.EvictionInvisible` gives the
  exact condition.
- `validate_body` bounds characters, not parts, so a body it accepts can be refused by
  segmentation: `Segmentation.AcceptedButTooManyParts`. By weight (`WeightBounds`), ten parts
  always do up to 1521 septets or 661 units and never beyond 1530 or 670; between the two
  the weight does not decide (`WeightAloneDoesNotDecide`). For bodies whose characters all
  cost the same the number of characters does (`UniformBodies`), and validation and
  segmentation agree on every body of one-septet characters (`AcceptedIsSegmented`).
- `retry_after_secs` clamps to the window's whole seconds, so the wait it names can end
  before the window does; `RateLimit.RetryAfterIsTight` says exactly when it is enough.
- `+CMTI` announcements among the lines of a submission, a status query, a setup or a
  character-set command are not queued: `scan_cmti` is not called there. The message stays on
  the SIM, so nothing is lost, but it is not handled until announced again.
  `MissedAnnouncements.AnnouncementMissed` is a session in which one is missed;
  `VisitTheorems.VisitedExactlyHeeded` says which announcements are visited, and which not.
- The queue of announced indices goes with the session (`service/src/modem/session.rs:434`):
  those still in it when the port is lost are not visited by that session or any later one,
  and the visit the port was lost in is not repeated. Again nothing is lost on the SIM.
  `StrandedAnnouncements.VisitedOrStranded` says which announcements these are, and
  `OneStranded` shows a session with one of each kind.

## Model

| member | source | states |
|---|---|---|
| ModemSide.FramesReadBack | service/src/modem/transport.rs:158-170 | The bytes written determine the frame: two frames render alike only if they are equal, are both headers or both bodies, or are the same plain command, the driver's own or a caller's; so no command is ever confused with another or with half a submission. |
| ModemSide.FramesAreUnderstood | service/src/modem/session.rs:125-196 | A reader of the bytes written from the command syntax, and not from how they are rendered, makes of every frame what the driver means by it: the verb and the very argument of each read, delete, selection and header, and none of these of a plain command or one passed on. |
| ModemSide.DeletesAreDeletes | service/src/modem/session.rs:178-178 | Bytes the modem understands as a delete of an index are the driver's delete of that index and nothing else. |
| ModemSide.SubmissionMeans | service/src/sms.rs:398-426 | Under the settings for its encoding, the bytes of a header and a body are one message to the recipient's digits and plus signs with the part as its text, in that encoding; under UCS2 a recipient with neither digit nor plus sign is not read. |
| Transport.Wire.Collect | service/src/modem/transport.rs:173-216 | Over any script: the lines gathered are those read less the blank ones, the first terminator (kept) or the deadline closes them, and a lost port is told apart; on a live connection the script is played just so far. |
| Transport.Wire.WaitForPrompt | service/src/modem/transport.rs:37-50 | Reads past every line that is not a prompt, and tells the prompt, the deadline and the lost port apart. |
| Transport.Wire.Exchange | service/src/modem/transport.rs:158-170 | Written only in command mode; the trace of an exchange is the frame and then just the lines of the answer, gathered as the source gathers them; no submission or read stays open; a message read yields exactly the message its own answer parses to, any other command changes nothing but what it selects. |
| Transport.Wire.Abort | service/src/modem/transport.rs:224-229 | After ESC the line is in command mode whatever the modem answers, or the port is lost. |
| Transport.Wire.SendPart | service/src/modem/transport.rs:251-292 | Exactly what goes out: header; then body, or ESC if no prompt came; then ESC if no result came; less if the port goes. Whatever the modem does, at most one submission is added, of this part to this recipient; it is settled: confirmed or rejected by its replies, escaped when a deadline had just passed and not before, or cut; and the line is back in command mode unless the port is lost. |
| Sending.SetCharset | service/src/modem/session.rs:331-346 | The two selections go out, and afterwards the pair asked for is in force whatever the answers, or the port is lost; submissions and inbound state are untouched. |
| Sending.SendPartWithRetries | service/src/modem/session.rs:198-261 | From one to max(1, attempts) submissions of the part: rejected ones, then a confirmed one with its reference, or an escaped one with no retry, or all rejected with the last code. |
| Sending.SendAllSegments | service/src/modem/session.rs:351-374 | The parts' submissions in order, each delivered before the next is begun; stops at the first part not sent and reports its result; otherwise the last part's reference. |
| Sending.HandleSend | service/src/modem/session.rs:264-326 | Nothing is written while undeliverable or oversized; otherwise text mode first, the message's outcome is that of its segments, and under UCS2 the settings bracket everything: on every path on which the port lives the last two writes restore IRA. |
| SendTheorems.SentMeansDelivered | service/src/modem/session.rs:264-326 | If the answer is Sent, each segment in order has one to max submissions of which exactly the last was confirmed, and the confirmed payloads, each less its Ctrl-Z and decoded, put the original body together again. |
| SendTheorems.NothingAfterTimeout | service/src/modem/session.rs:225-237 | Whatever the outcome, every submission but the last was answered: after a timed-out or cut one no further header is written; the last was answered, timed out or cut, and never given up early. |
| Submissions.SubmissionsAreTheTrace | service/src/modem/transport.rs:251-292 | On a faultless line the submissions observed are the headers and bodies of the trace, pair by pair: each has its own header, its own body if it got that far, with the same recipient, encoding and text, every header and body of the trace belongs to one, and each is over before the next one's header. |
| Submissions.ConfirmedOnTheTrace | service/src/modem/transport.rs:251-292 | Each confirmed submission has, at places in this order, its header, a prompt, its body under the same encoding and an OK; nothing else is written between; the lines heard after the body up to that OK are its replies, and they hold its reference. |
| Submissions.FailuresOnTheTrace | service/src/modem/transport.rs:251-292 | A rejected submission has the same places and a result, but no OK after a reference. A timed-out one has an ESC right after a deadline: either no prompt had come since its header, or none but data lines since its body; nothing else is written between. |
| SendTheorems.PayloadsCarry | service/src/sms.rs:419-426 | The payloads of parts their encoding can carry decode to the parts' concatenation. |
| SendTheorems.SegmentsCarriable | service/src/sms.rs:344-358 | Every segment of every body is one its encoding can carry. |
| Inbound.PendingIndices.Scan | service/src/modem/session.rs:43-49 | Queues exactly the indices announced in the lines, in order; those before, taken and queued together stay every index announced. |
| Announcements.AnnouncesExactly | service/src/modem/protocol.rs:296-299 | A line announces an index if and only if, trimmed, it is +CMTI: and then, after the last comma or at once, a number of that value. |
| Inbound.ReadInbound | service/src/modem/session.rs:133-148 | One to three reads of the index, answered one after another on the trace, stopping at the first answer that is OK and parses; every announcement in the answers is queued; the message returned is the one the line monitor reconstructs. |
| Inbound.StoreInbound | service/src/modem/session.rs:161-194 | One row if the insert succeeds and then one delete of that index; no delete at all if it fails; the audit log says which. |
| Inbound.HandleInbound | service/src/modem/session.rs:125-196 | At most one insert per handling; what is done on the modem is up to three reads and, only once the message is a row, one delete, each as the trace shows it asked and answered; rows and audits follow from how it ended, errors included; the queue takes up just the announcements the trace shows heeded. |
| AnnouncementTheorems.HeededIsHeeds | service/src/modem/session.rs:43-49 | A received line is taken up if and only if it was polled with nothing being answered, or stands in the answer, brought to its end, to a read, a delete or a raw command. |
| VisitTheorems.VisitedExactlyHeeded | service/src/modem/session.rs:425-482 | In a session the announcement received at a position of the trace is due a visit if and only if it was polled or stands in such an answer; the visits are to those announcements, in order and one for each, and to all of them if the channel closed. |
| MissedAnnouncements.MissedIsNotHeeded | service/src/modem/session.rs:43-49 | A line received while any other frame is being answered is never taken up, whatever follows. |
| MissedAnnouncements.ClosedAfterRefresh | service/src/modem/session.rs:84-112 | On any script that answers the four queries, whatever lines stand in the answers, RunSession with a closed channel runs the refresh, just those lines are the trace, and nothing is visited. |
| MissedAnnouncements.AnnouncementMissed | service/src/modem/session.rs:84-112 | On a script with +CMTI: "SM",n in the answer to AT+CREG?, for any n, what RunSession yields is a faultless session, its channel closed, in which the announcement is received, not taken up, and nothing is visited. |
| MissedAnnouncements.MissedTrace | service/src/modem/session.rs:84-112 | The whole trace of such a first connection, from power-up through ESC and setup: faultless, and nothing announced is taken up. |
| StrandedAnnouncements.RunAnnounces | service/src/modem/mod.rs:160-238 | Over a run of the manager the announcements taken up are, session by session, those visited and then those stranded. |
| StrandedAnnouncements.VisitedOrStranded | service/src/modem/session.rs:425-482 | In a run of the manager each announcement taken up is due in exactly one session, at its rank among those due there: it is visited there if the session came that far, and otherwise that session lost the port and no session visits it; only the last visit of a session that lost the port may have been cut short. |
| StrandedAnnouncements.OneStranded | service/src/modem/session.rs:434-445 | A faithful session record, from any moment at which a session may start: two messages are announced in a raw answer, the port goes as the first is about to be read, nothing is read, and the second is stranded. The trace is written out and not derived from a script. |
| InboundSafety.NoInboundLoss | service/src/modem/session.rs:125-196 | At every moment of every faultless run, with any failures, a message that was ever on the modem is still there unchanged or among those stored; the modem is known only by the bytes it is sent, as `ModemSide` reads them. |
| InboundSafety.RemovedWasStored | service/src/modem/session.rs:161-179 | Conservation with multiplicity: what has left the modem, plus the message stored and not yet deleted, is within what was stored. |
| LineSafety.DeletedOnlyOnceStored | service/src/modem/session.rs:161-179 | A delete of index i comes after a read of i answered OK and after the very message in that answer went into the database. |
| LineSafety.NoCommandInTextEntry | service/src/modem/transport.rs:239-292 | Between a header and the next command or header of the trace there is an ESC, or a body and after it a result: no command is ever swallowed as text. |
| LineSafety.ReconnectsBeginWithEscape | service/src/modem/mod.rs:181-192 | On every new connection an ESC goes out before the first command or header. |
| LineSafety.UnderItsCharset | service/src/modem/session.rs:303-326 | Each header, and each status query, is preceded on its connection by the pair of settings it needs, with no other selection between. |
| LineSafety.WrittenInOrder | service/src/modem/transport.rs:251-292 | Whatever is written on a faultless line is written in the mode, under the character set and in the inbound phase it needs. |
| ModemSafety.WrittenUnderSettings | service/src/modem/session.rs:303-326 | At every header of a faultless line the modem is, by the bytes it has been sent so far, under the character set and the data coding of that header's encoding. |
| ModemSafety.AskedUnderSettings | service/src/modem/session.rs:84-112 | At every status query it is, by those bytes, under the plain character set. |
| ModemSafety.DeletesAfterStoring | service/src/modem/session.rs:161-179 | Whatever bytes the modem understands as a delete of an index come after bytes it understands as a read of that index, an answer to them brought to OK, and the storing of the message in that answer. |
| Setup.Initialize | service/src/modem/session.rs:53-82 | Whatever the answers, the setup commands go out in order and IRA is in force afterwards, or the port is lost; accepted exactly when every answer was OK; no submission, no stored message and no announcement is touched. |
| Setup.SetupConfigures | service/src/modem/session.rs:53-82 | By the bytes of its commands, setup leaves the modem in text mode with detailed headers, under IRA and its parameters, and with the service center's number exactly if one is configured. |
| Setup.RefreshStatus | service/src/modem/session.rs:84-112 | The four queries go out in order; the snapshot is replaced only when all got through, from the answers to the SIM and the network query as they stand in the trace, and its verdict is the one the trace's last completed refresh gives; no announcement among the answers is heeded; on a live connection trace and script are left just as playing the queries leaves them. |
| ReadinessTheorems.RefreshVerdict | service/src/modem/session.rs:84-112 | A refresh whose four queries are answered, with whatever blank lines, leaves the modem ready to send if and only if the answer to the SIM query says ready and the one to the network query registered, whatever went before. |
| ReadinessTheorems.ReadyWhen | service/src/modem/protocol.rs:302-319 | By the lines as a modem prints them: if and only if the first +CPIN: line there says READY and the first +CREG: line a status of 1 or 5. |
| Requests.HandleRequest | service/src/modem/session.rs:376-403 | A raw command is answered with the lines and result the trace shows for it, submits nothing, and has its announcements queued; a send is attempted exactly when the trace's last completed refresh found the modem ready, and answered with the outcome of the submissions the trace shows; no answer only if the port is lost. |
| DeliveryTheorems.SentOnTheTrace | service/src/modem/session.rs:264-326 | A caller told Sent: on the trace of that request, for every segment in order, stand a header to the recipient, a prompt, the segment's body and, with nothing else written between, an OK after a reference, each over before the next begins; the bytes of those bodies decode to the whole message; the reference answered is the one heard last. |
| DeliveryTheorems.SentAsGiven | service/src/modem/session.rs:264-326 | A caller told Sent: by the bytes on the line and the settings they left, the modem sends, in order and between request and answer, one message for each segment, each to exactly the digits and plus signs of the recipient in their order, and the texts of those messages together are the text of the request. |
| DeliveryTheorems.NothingAfterSilence | service/src/modem/session.rs:225-237 | Whatever a caller is answered, every submission of the request but the last was answered by the modem, and the last was answered, ran into a deadline, or was cut by the loss of the port. |
| Session.DrainPending | service/src/modem/session.rs:437-445 | Handles queued indices first announced first, until none is left or the port is lost; the queue and what was taken from it stay the announcements the trace shows heeded, those made meanwhile included; all it did is accounted for by its visits. |
| Session.RunSession | service/src/modem/session.rs:425-482 | The indices visited are, in order and each once, those the trace of the session shows heeded, and all of them when the channel closes; requests are served in the order of the turns taken, each as its part of the trace shows; each turn wrote the four status queries if a refresh was due and none otherwise, and read the line once if that was its pick; only the last visit can have lost the port; rows, audits, submissions and deletes are exactly those of the recorded visits and requests; the line stays faultless. |
| Session.RefreshIfDue | service/src/modem/session.rs:447-453 | Refreshes exactly on the first turn and when 30 s have passed since the last refresh; otherwise the line is not touched. |
| Session.RefreshCadence | service/src/modem/session.rs:447-453 | A turn of a session refreshes the status if and only if every refresh before it in the session is at least 30 s old; that the trace shows just those refreshes is part of RunSession's record. |
| Manager.BackoffOrGiveUp | service/src/modem/mod.rs:248-274 | The saturating counter's next value, and the delay for it or, past the limit, the end with its audit record. |
| Manager.Recover | service/src/modem/transport.rs:234-237 | A fresh port is written one ESC and is then in command mode, or lost. |
| Manager.Connect | service/src/modem/mod.rs:164-226 | One connection is a session at most, faithful to its part of the trace, with no submission, touch or heeded announcement outside it; it ends in shutdown exactly when that session's channel closed, and the agenda left is what the session did not take; the line stays faultless and the snapshot is left disconnected. |
| Manager.RunManager | service/src/modem/mod.rs:160-238 | The run is a chain of sessions, each faithful to its part of the trace, with nothing that counts between them, and together they took the agenda up to what is left; shutdown exactly when the last one's channel closed, all others having lost the port; gives up exactly when the attempt counter passes the limit, after the scheduled delays and with its audit record; no fault on the line ever. |
| Manager.LostSessionsNeverClosed | service/src/modem/mod.rs:194-238 | Sessions that all ended with the port lost took no turn on which the channel was closed. |
| Manager.NothingIsLost | service/src/modem/mod.rs:160-238 | Over the whole manager run, a message ever on the modem is still there or is a row of the database. |
| Manager.AttemptsCountRefusals | service/src/modem/mod.rs:162-166 | The counter exceeds n exactly when more than n openings were tried and the last n were all refused (n below the saturation point). |
| Manager.BackoffDoubles | service/src/modem/protocol.rs:15-24 | Delays start at one second and double up to 60 s, where they stay. |
| Segmentation.SegmentationIsOptimal | service/src/sms.rs:293-339 | Over the single-part budget, TooManyParts exactly when the least number of fitting parts over all splits exceeds ten, and that number is what is reported or returned. |
| Segmentation.SegmentsAreFaithful | service/src/sms.rs:293-339 | The parts concatenate to the body, are numbered 1..n, fit the budget, are non-empty unless the body is, and are one exactly when the single-part budget allows. |
| Alphabet.AlphabetIs | service/src/sms.rs:173-226 | The characters of one septet are those of the default alphabet's table but its escape, and those of two the extension's (3GPP TS 23.038, sections 6.2.1 and 6.2.1.1). |
| Alphabet.SeptetsReadBack | service/src/sms.rs:173-226 | A GSM-7 text is read back from its septets by the tables, and there are as many as it weighs. |
| Alphabet.BudgetsAreWhatFits | service/src/sms.rs:144-152 | A part is within its budget if and only if its septets or UTF-16 units, with the header of several parts if there are several, fit in 140 octets. |
| Alphabet.SegmentsFit | service/src/sms.rs:293-339 | Every segment fits in one short message, and there is just one segment exactly when the body fits without a header. |
| Segmentation.SegmentBy | service/src/sms.rs:293-339 | The one-pass loop returns the greedy split, or its count when over ten. |
| Segmentation.SegmentSimple | service/src/sms.rs:241-265 | The fixed-chunk fast path equals the general segmenter at the GSM-7 cost, error and count included. |
| Segmentation.SegmentMessage | service/src/sms.rs:344-358 | Both paths give the one segmentation of the body. |
| Segmentation.SimpleIsGsm7 | service/src/sms.rs:228-239 | A body the fast path accepts is GSM-7 and weighs one septet per character. |
| Segmentation.SimpleBodiesNeverRefused | service/src/sms.rs:30-43 | A body of the fast path needs too many parts exactly when validation already refused its length. |
| Segmentation.AcceptedIsSegmented | service/src/sms.rs:30-43 | So does every body of one-septet characters, the fast path's or not: too many parts if and only if refused for its length. |
| Segmentation.WeightBounds | service/src/sms.rs:293-339 | Whatever its characters, a body that weighs at most ten parts less one unit each, and one unit, is segmented; one that weighs more than ten full parts never is. |
| Segmentation.UniformBodies | service/src/sms.rs:293-339 | A body whose characters all cost u needs too many parts if and only if it has more than ten times floor(budget / u) characters. |
| Segmentation.WeightAloneDoesNotDecide | service/src/sms.rs:293-339 | Two accepted bodies of the same weight, 1530 septets, of which one is segmented and one refused. |
| Segmentation.AcceptedButTooManyParts | service/src/sms.rs:30-43 | A body validation accepts and segmentation refuses, one septet over the bound within which ten parts always do. |
| Greedy.PartsLeast | service/src/sms.rs:310-330 | No split of the text into parts that fit has fewer parts than the greedy one, for any cost. |
| Greedy.PartsAreLeast | service/src/sms.rs:310-330 | The greedy split's size is the least size of a fitting split. |
| Ucs2.DecodeEncode | service/src/sms.rs:362-389 | Decoding an encoded non-empty string of scalar values gives it back. |
| Ucs2.EncodeDecode | service/src/sms.rs:362-389 | Any hex that decodes re-encodes to its trimmed uppercase form. |
| Ucs2.DecodeFails | service/src/sms.rs:374-389 | Decoding fails exactly on blank input, a length not a multiple of four, a non-hex digit or an unpaired surrogate (RFC 2781, sections 2.1 and 2.2). |
| Ucs2.Encode | service/src/sms.rs:362-369 | The encoding loop computes the hex of the UTF-16BE units. |
| Ucs2.Decode | service/src/sms.rs:374-389 | The decoding loop computes the text of the units, or nothing. |
| Ucs2.EncodedConcat | service/src/sms.rs:362-369 | Encoding distributes over concatenation, so segmenting before or after encoding is the same. |
| Framing.HeaderIsOneCommand | service/src/sms.rs:398-412 | Whatever the recipient string, the header's only carriage return ends it and its address stands between its only two quotes. |
| Framing.SanitizedIsDialed | service/src/sms.rs:398-412 | The address is the recipient's digits and plus signs: all of them, those only, and in their order, for any string. |
| Framing.NumberIsKept | service/src/sms.rs:398-412 | A recipient of digits and plus signs is addressed as given. |
| Framing.OneTerminator | service/src/sms.rs:419-426 | Whatever the part, exactly one Ctrl-Z goes out and it is the last byte. |
| Framing.PayloadCarries | service/src/sms.rs:419-426 | The payload less its last byte, read as UTF-8 under GSM-7 and as hex under UCS2, gives the part, for every GSM-7 part and every non-empty UCS2 part. |
| Framing.BytewiseCarries | service/src/sms.rs:419-426 | Read one character a byte, a GSM-7 payload gives the part if and only if the part is ASCII. |
| Protocol.CmgsReferenceRoundTrip | service/src/modem/protocol.rs:138-146 | Parsing a formatted reference gives it back over the whole 32-bit range. |
| Protocol.ResultsReadBack | service/src/modem/protocol.rs:76-103 | OK, ERROR and both numbered errors with every 16-bit code, printed and with any white space around them, are read back as the result they say. |
| Protocol.UnnumberedErrors | service/src/modem/protocol.rs:85-98 | A numbered error whose number is missing, malformed or too large is read as a plain error. |
| Protocol.OnlyTerminators | service/src/modem/protocol.rs:76-103 | Only a line that is OK when trimmed says OK, and no line but OK, ERROR and the numbered errors ends an answer. |
| Protocol.PromptsAre | service/src/modem/protocol.rs:133-135 | A prompt is exactly a line whose first character that is not white space is >. |
| Protocol.ParseSendOutcome | service/src/modem/protocol.rs:175-202 | The loop computes the outcome of the lines. |
| Protocol.SendOutcomeMeaning | service/src/modem/protocol.rs:175-202 | The outcome is decided at the first terminator: Sent exactly when it is OK and a reference came before it, with the latest such reference; otherwise its error code. |
| Protocol.PrintedOutcome | service/src/modem/protocol.rs:175-202 | By the terminator as a modem prints it: OK confirms the latest reference before it and fails without one, either numbered error fails with its very number, ERROR without. |
| Protocol.SplitFields | service/src/modem/protocol.rs:268-285 | The one-pass splitter computes the quoted-CSV split. |
| Protocol.SplitIsTheCut | service/src/modem/protocol.rs:268-285 | A list of fields is the split of s if and only if joined by commas it gives s and it is cut exactly at the commas outside quotes. |
| Protocol.RegistrationReads | service/src/modem/protocol.rs:311-319 | A +CREG: n,stat line, for every n and stat and whatever follows in it, says registered if and only if stat is 1 or 5; the first such line decides. |
| Protocol.SimReads | service/src/modem/protocol.rs:302-308 | The first +CPIN: line decides: ready exactly for READY, not ready for any other state. |
| Protocol.NothingReported | service/src/modem/protocol.rs:302-319 | Without such lines the SIM is unknown and the modem not registered. |
| Text.TrimMeans | service/src/modem/protocol.rs:76-77 | Trimming takes off white space at either end, all there is, and nothing else. |
| Text.ParsesNumbers | service/src/modem/protocol.rs:85-98 | A number is parsed exactly from its decimal numerals, zeros and one plus sign before them allowed, read from left to right, up to the type's maximum. |
| Cmgr.ParseCmgr | service/src/modem/protocol.rs:222-245 | The line loop computes the parse of the response. |
| Cmgr.FormatText | service/src/modem/protocol.rs:212-214 | The formatted response is the source's literal text. |
| Cmgr.FormatRoundTrip | service/src/modem/protocol.rs:212-245 | For every sender without quotes or newlines, parsing the formatted response gives sender and body back if and only if no body line is a terminator and no line feed follows a carriage return. |
| Cmgr.HeaderReads | service/src/modem/protocol.rs:247-266 | The fields of a detailed header line are read back as they were put in. |
| Cmgr.MessageReads | service/src/modem/protocol.rs:222-266 | From an answer with a header of either shape, body lines that are neither blank nor terminators, and OK, blank lines anywhere: the sender, and those lines as they stand, or decoded if the header says UCS2 and they decode. |
| Cmgr.CodingRead | service/src/modem/protocol.rs:257-266 | A header says UCS2 if and only if it has an eighth field and bits 3 and 2 of the number there, at most 16 bits, are 1 and 0. |
| Cmgr.PlainMessageReads | service/src/modem/protocol.rs:222-285 | Under every data coding but those, and under the short header, such an answer gives the sender and the body lines verbatim. |
| Cmgr.Ucs2MessageReads | service/src/modem/protocol.rs:222-285 | Lines that, blank ones aside, are a detailed header with any data coding whose bits 3 and 2 are 1 and 0, the hex of any text and OK, gathered and parsed, give exactly the sender and the text, the empty text (whose line is blank) included. |
| Cmgr.NothingToRead | service/src/modem/protocol.rs:222-252 | No message is read if and only if no line is a header or the first that is holds no comma outside quotes. |
| Cmgr.UndecodableReads | service/src/modem/protocol.rs:222-245 | A body said to be UCS2 that does not decode is kept verbatim. |
| SerialBuffer.SerialPortTransport.ReadLine | service/src/modem/transport.rs:75-109 | Drains one complete line or nothing; pieces drained and bytes pending stay the bytes received. |
| SerialBuffer.TrimEolMeans | service/src/modem/transport.rs:75-109 | From a line just its trailing carriage returns and line feeds are taken, all of them. |
| SerialBuffer.SerialPortTransport.WaitForPrompt | service/src/modem/transport.rs:111-149 | Drains up to the first prompt, with the space after it if that has arrived, or nothing; no byte is lost, repeated or reordered. |
| SerialBuffer.SerialPortTransport.LinesDependOnBytes | service/src/modem/transport.rs:75-109 | When only lines were read, the lines returned are a prefix of the lines of the whole byte stream, and after a read that found none all those received so far. |
| SerialBuffer.ChunkingIsInvisible | service/src/modem/transport.rs:75-109 | Two runs over the same bytes, chunked in any two ways, return the same k-th line. |
| Lockout.LockoutUntil | service/src/auth.rs:75-93 | The end of the lockout of the latest failure that trips the threshold, and none exactly when no failure does. |
| Lockout.IsLockedOut | service/src/auth.rs:96-98 | Locked exactly when some failure that trips is less than the lockout ago. |
| Lockout.AdminLocked | service/src/admin/session.rs:91-111 | The admin test: some failure at or before now trips and is less than the lock ago. |
| Lockout.PoliciesAreRoomy | service/src/auth.rs:14-27 | Both shipped sets of constants leave the cap room: 32 covers 24 failures for keys and 8 for admins. |
| Lockout.LockedMeans | service/src/auth.rs:14-27 | A key is locked out if and only if some five of its failures in a row lie within 60 s and the last of these is less than 300 s ago; an administrator likewise with 900 s for both. |
| Lockout.LastFailuresDecide | service/src/auth.rs:139-144 | If the full history is locked at any later instant, so are its last `cap` failures. |
| Lockout.BoundedAgrees | service/src/auth.rs:122-154 | A history pruned by age, evicted and capped gives the verdict of the full one at every later instant. |
| Lockout.NextAfterTrip | service/src/auth.rs:178-198 | The accepted failure after one that trips is at least a whole lockout later. |
| Lockout.AcceptedPerWindow | service/src/auth.rs:178-198 | No closed window holds more than `threshold` accepted failures between successes, for a lockout longer than the window, as for keys. |
| Lockout.AcceptedPerHalfOpenWindow | service/src/admin/session.rs:91-111 | Nor does a window without its last instant, for a lockout no shorter than the window, as for administrators. |
| FailureTracker.RecentIsSuffix | service/src/auth.rs:136-137 | Pruning an ordered history by age keeps its latest part and drops only what is too old. |
| FailureTracker.PushedIsRecent | service/src/auth.rs:133-145 | What recording leaves of a history is at most the cap long, ends with the new failure and holds none older than window and lockout together. |
| FailureTracker.EvictedKeys | service/src/auth.rs:148-154 | Eviction lets go of exactly the identifiers whose latest failure is older than that. |
| FailureTracker.EvictionTracks | service/src/auth.rs:148-154 | Evicting stale entries keeps every identifier's history in agreement with the full one. |
| FailureTracker.RecordTracks | service/src/auth.rs:122-145 | Recording, pruning and capping one identifier keeps all in agreement with the full histories. |
| FailureTracker.Tracker.IsLocked | service/src/auth.rs:115-119 | The tracker's verdict is that of every failure accepted since the last success. |
| FailureTracker.Tracker.IsAdminLocked | service/src/admin/session.rs:195-199 | The same for the admin tracker's own test. |
| FailureTracker.Tracker.RecordFailure | service/src/auth.rs:122-145 | The failure joins the full history unless the map is saturated with live entries; the map never exceeds 50,000. |
| FailureTracker.Tracker.Authenticate | service/src/auth.rs:178-198 | Locked out exactly by the unbounded verdict; a success clears the identifier's history, a failure extends it, a lockout changes nothing; the map stays bounded. |
| RateLimit.Counter.Decide | service/src/ratelimit.rs:48-69 | The in-place update is the decision function of the old state. |
| RateLimit.RateLimiter.Check | service/src/ratelimit.rs:118-135 | The decision is the one the key's own calls so far come to, idle evictions included, and no other key's changes. |
| RateLimit.RateLimiter.LetGo | service/src/ratelimit.rs:107-117 | The cache lets an entry go exactly when it has been idle for the TTL; no other key's changes. |
| RateLimit.LimiterPaces | service/src/ratelimit.rs:118-135 | The limiter as it runs, evictions included: a key on the same terms throughout, a limit L of at least 1 and a window no longer than the TTL, has at most 2L - 1 requests allowed in any half-open interval one window long. |
| RateLimit.LimiterIsRun | service/src/ratelimit.rs:118-135 | For a key on the same terms throughout, a limit of at least 1 and a window within the TTL, what the limiter decides and allows, evictions and other keys notwithstanding, is the run of that key's requests. |
| RateLimit.LimiterRejectsOnlyWhenFull | service/src/ratelimit.rs:118-135 | Such a key is rejected only if as many requests as the limit were allowed it within the window that ends at the rejected one. |
| RateLimit.LimiterKeepsItsWord | service/src/ratelimit.rs:118-135 | After Allow(remaining), of the key's further requests within that window exactly the first remaining are allowed. |
| RateLimit.TraceIsRun | service/src/ratelimit.rs:48-69 | Without evictions the requests a key has allowed are those of its run, and so is its state. |
| RateLimit.RetryAfterIsTight | service/src/ratelimit.rs:71-76 | Never a second too many; enough exactly when what remains of the window is within its whole seconds. |
| RateLimit.WholeSecondsSuffice | service/src/ratelimit.rs:71-76 | Waiting as told is always enough when the window is a whole number of seconds. |
| RateLimit.AllowedPerInterval | service/src/ratelimit.rs:48-69 | In any run at a constant limit L >= 1, every half-open interval one window long lets at most 2L - 1 through. |
| RateLimit.AllowedPerWindow | service/src/ratelimit.rs:48-69 | The limiter's own window never lets more than L through. |
| RateLimit.RejectedOnlyWhenFull | service/src/ratelimit.rs:48-69 | In any run a request is rejected only if at least the limit was allowed within the window that ends at it. |
| RateLimit.RemainingIsLeft | service/src/ratelimit.rs:48-69 | In any run, of the requests that follow an Allow(remaining) within its window exactly the first remaining are allowed. |
| RateLimit.WindowReopens | service/src/ratelimit.rs:48-69 | The first request once a window is over is allowed and starts the next. |
| RateLimit.WaitIsHonoured | service/src/ratelimit.rs:48-76 | In any run at a window of whole seconds a rejected caller who waits as told is allowed; one who waits a second less is rejected, at any window. |
| RateLimit.EvictionInvisible | service/src/ratelimit.rs:91-135 | Idle eviction changes no decision of any run if and only if the window is empty, or the limit is at least 1 and the window at most the TTL. |
| AdminSessions.LiveMeansInUse | service/src/admin/session.rs:145-177 | A token is live if and only if it was created, neither created again nor removed since, and never left unused for the timeout from then until now. |
| AdminSessions.SessionStore.CreateSession | service/src/admin/session.rs:131-142 | The history gains that creation and nothing else, and the token is live, whatever it was before. |
| AdminSessions.SessionStore.ValidateToken | service/src/admin/session.rs:153-165 | Answers exactly when the token is live by its whole history, with the administrator it was created for; the answer counts as a use, and a token not live is gone from the table. |
| AdminSessions.SessionStore.CsrfFor | service/src/admin/session.rs:145-150 | Answers exactly when the token is live by its whole history, with the CSRF token of its creation; the history is not extended. |
| AdminSessions.SessionStore.RemoveToken | service/src/admin/session.rs:168-170 | The token is gone from the table and no longer live by its history. |
| AdminSessions.SessionStore.SweepExpired | service/src/admin/session.rs:174-177 | The table holds exactly the tokens live by their history, sweeps made earlier notwithstanding, each with the session that history gives it. |
| AdminSessions.SweepingIsInvisible | service/src/admin/session.rs:145-177 | Sweeps inserted anywhere in a run change no later answer. |
| Lifecycle.StepKeeps | service/src/api/v1.rs:425-479 | Every step of a dispatch task, the reaper or the clock keeps the invariant that ties rows, tasks and events. |
| Lifecycle.OutboundSafety | service/src/lib.rs:207-294 | In every interleaving: at most one send of a message in flight, a terminal status never changes, and exactly one event, with that status, is published for it. |
| Lifecycle.OutcomeIsTheReply | service/src/api/v1.rs:425-479 | Over every assumed run, by the actions alone: a terminal status and every event published for a message are the last answer the modem gave to a send of it, by dispatch or reaper; with none, or a queued one, it is queued and nothing is published; and once nobody is at it that answer is recorded. |
| Lifecycle.ReapedAreOld | service/src/lib.rs:207-232 | In any run whatever, the reaper has at most 200 messages in hand and none of them within 300 s of its creation. |
| Lifecycle.StatusStable | service/src/db.rs:296-324 | Once terminal, a status is the same at every later moment of the run. |
| Lifecycle.FailedWriteSendsTwice | service/src/lib.rs:240-266 | Without the assumption on status writes a message can be delivered, and announced, twice. |
| Lifecycle.SlowDispatchSendsTwice | service/src/lib.rs:207-210 | Without the 300 s assumption two sends of one message can be in flight. |
| Migrations.Database.RunMigrations | service/src/db.rs:128-181 | Through a failure at any step the ledger stays a prefix of the list and the schema its fold, each migration once; done, and the gate open, exactly when nothing fails; the version named is where it stopped. |
| Migrations.Lifetimes | service/src/db.rs:128-181 | After any sequence of processes of which one met no failure, everything is applied exactly once. |
| Migrations.MaxOfAscending | service/src/db.rs:139-148 | The ledger's maximum is the last version applied, 0 when there is none. |

## Left out

- HTTP routing, rendering, OpenAPI, event streams, the web interface and the Python client: no property beyond single branches.
- Argon2, SHA-256, random tokens and cookies: identifiers and tokens are opaque values.
- SQLite and RFC 3339 text: tables are maps and sequences, times integers; timestamps are assumed to order as their times do.
- `derive_health`, `deliverability_gate`, `effective_limit`, `passes_guard`, E.164 validation, configuration, logging and metrics: single-branch facts.
- Signal strength and operator name: two fields of the snapshot nothing else depends on (their queries are sent and checked like the others).
- Inbound events published after an insert: one per row, at the same place.
- Text mode at the modem: `ModemSide` reads a submission as text whatever the mode; that `AT+CMGF=1` goes out before each send is part of `Sending.HandleSend`.
- Timeouts and sleeps: a deadline passing is an event of the script; the delays of the reconnect loop are returned.
- Lossy UTF-8 decoding of received lines: `SerialBuffer` works on bytes, `Transport` on lines already decoded.
- The byte-level prompt search and the line-level trace are not joined: the trace uses the trait's line-wise default of `wait_for_prompt`.
- moka's capacity eviction and the API-key cache: library internals.
- Floating-point rounding in `retry_after_secs`: an exact integer ceiling over nanoseconds stands in for it.
- Process crashes between a modem send and its row update: outside what the reaper's comment assumes.
- Concurrent checks of one rate-limit key: the entry's mutex serialises them, so a check is one step.
- Failures dropped because the lockout map is saturated with live entries: they are not accepted ones and are not counted.
- Fairness between the request channel and the line: a session's agenda picks either, in any order.
