# Farm hub: LoRa receive path, alert rules and cloud sync

A Dafny model of the data hub of a smart-farm biosecurity installation. The hub receives
LoRa peer-to-peer packets from the gate controller and the animal ear tags. It frames the
modem's serial text into lines and decodes the hex payload of every `+EVT:RXP2P` event into a
JSON record. It classifies each record as ear-tag or sprinkler data and checks the readings
against a table of alert rules. Each alert key has a cooldown. The rows stored locally are
later pushed to a cloud API in batches, with bounded retries.

The hub exists in two versions, and both are modelled:

- `FarmHub` models `IOT/BOM/smart_farm_bom_complete.py`, the full hub. It parses only
  complete lines and keeps a partial line until its newline arrives. A partial line with no
  new data for 5 seconds is thrown away. Its receiver reads the RSSI with the corrected RSSI
  scan (see Findings): the value after the `RSSI` label. The loop as written is modelled
  beside it, and it reports -999 on the documented line layout.
- `BomHub` models `IOT/BOM/bom_system.py`, the simpler hub. As soon as its buffer holds the
  marker, it parses every line of the buffer, the unfinished last one included, and then
  empties the buffer. Lemmas state the differences against `FarmHub`.

The other modules are:

- `Alerts` models `IOT/BOM/alert_system.py`: rule loading and rule evaluation, the cooldown
  map of `AlertManager`, and the environmental, animal-health and system checks.
- `CloudSync` models `IOT/BOM/cloud_sync.py`: the per-table retry loop with `2 ** attempt`
  backoff, the full pass and its statistics.
- `Text`, `Hex`, `Json` and `Wrappers` model the Python building blocks the hub relies on.
  These are `str.split`, `str.strip`, `in`, `int()`, `float()`, `bytes.fromhex` and
  `bytes.hex`, the decoded JSON value, and `Option`.

Time is a parameter. The alert engine takes whole seconds. The receiver takes a `real` clock
reading. Serial reads, the outcome of each HTTP send and the result of each database query
are parameters too. UTF-8 decoding followed by `json.loads` is a function parameter `decode`
from bytes to an optional record.

## Model

| member | source | states |
|---|---|---|
| `Text.ContainsIff` | IOT/BOM/smart_farm_bom_complete.py:526 | `sub in s` holds exactly when `sub` occurs at some position of `s` |
| `Text.SplitJoin` | IOT/BOM/smart_farm_bom_complete.py:552 | splitting on a separator loses nothing: joining the pieces with it gives the text back |
| `Text.SplitAtFirst` | IOT/BOM/smart_farm_bom_complete.py:523 | the first separator ends the first piece, and the rest splits on its own |
| `Text.SplitAppend` | IOT/BOM/smart_farm_bom_complete.py:517-523 | text arriving in two reads splits into the finished pieces of the first read, then the split of its unfinished last piece continued by the second |
| `Text.ParseIntRoundTrip` | IOT/BOM/smart_farm_bom_complete.py:566 | `int(str(n)) == n` for every integer, negative values included |
| `Text.ParseFloatStrips` | IOT/BOM/smart_farm_bom_complete.py:994 | `float()` on text skips surrounding whitespace exactly as `strip()` removes it |
| `Text.ParseFloatExtendsParseInt` | IOT/BOM/smart_farm_bom_complete.py:994-999 | every text `int()` accepts, `float()` accepts too, with the same value |
| `Text.ParseFloatFraction` | IOT/BOM/smart_farm_bom_complete.py:994 | the text `w.f` of digits reads as `w` plus the fraction `0.f`, so `"38.5"` reads as 38.5 |
| `Text.ParseFloatNegated` | IOT/BOM/smart_farm_bom_complete.py:994 | a minus sign before an unsigned numeral negates the value read, and the text fails exactly when the numeral does |
| `Text.RemoveAbsent` | IOT/BOM/smart_farm_bom_complete.py:565 | `replace(pat, '')` leaves a text without `pat` unchanged |
| `Hex.FromHexAccepts` | IOT/BOM/smart_farm_bom_complete.py:572 | `bytes.fromhex` accepts exactly the texts made of an even number of hexadecimal digits |
| `Hex.FromHexToHex` | IOT/BOM/smart_farm_bom_complete.py:572 | decoding the hex a sender produces gives back its bytes, whatever their values |
| `Hex.ToHexFromHex` | IOT/BOM/smart_farm_bom_complete.py:572 | accepted hex text re-encodes to itself, up to the case of its letters |
| `Json.TruncateToInt` | IOT/BOM/smart_farm_bom_complete.py:998 | `int()` of a float truncates toward zero |
| `Json.FloatOfReads` | IOT/BOM/smart_farm_bom_complete.py:994-999 | `float(v)` gives every number and boolean its value, reads text as the signed decimal numeral left after `strip()`, and fails on `None`, lists and objects |
| `Json.FloatOfExtendsToInt` | IOT/BOM/smart_farm_bom_complete.py:994-999 | `float(v)` accepts every integer, boolean or text that `int(v)` accepts, with the same value |
| `Alerts.OverlayLookup` | IOT/BOM/alert_system.py:74-90 | a configured parameter gets the rule built from its last configuration entry; every other parameter keeps its default rule; no other parameter appears |
| `Alerts.LoadAlertRules` | IOT/BOM/alert_system.py:74-90 | the loop over configuration entries yields that table; a missing condition defaults to `max`, severity to WARNING and cooldown to 60 minutes |
| `Alerts.Evaluate` | IOT/BOM/alert_system.py:211-227 | too low iff strictly below a lower threshold the condition checks; too high iff strictly above an upper one and not too low; so "too low" wins for `range`, and equality, an unknown condition or a missing threshold give nothing |
| `Alerts.NotificationChannels` | IOT/BOM/alert_system.py:268-285 | every alert goes to the webhook; email is added exactly for CRITICAL and WARNING |
| `Alerts.EnvAlertsJustified` | IOT/BOM/alert_system.py:92-113 | every environmental alert comes from a non-None reading that has a rule and violates it, carries that rule's severity, and records the check time under the parameter's key |
| `Alerts.EnvSilentWithinCooldown` | IOT/BOM/alert_system.py:96-111 | a parameter still inside its cooldown raises no alert, and its recorded time stays inside the cooldown |
| `Alerts.EnvRepeatSuppressed` | IOT/BOM/alert_system.py:103-111 | once a parameter has alerted at t1, no check at a time up to t1 plus its cooldown alerts for it again |
| `Alerts.HealthKeysDistinct` | IOT/BOM/alert_system.py:120-183 | a device's `_hr`, `_spo2`, `_temp` and `_activity` keys are pairwise different |
| `Alerts.HealthKeysDisjoint` | IOT/BOM/alert_system.py:120-183 | two different devices share no cooldown key |
| `Alerts.HealthTouchesOnlyOwnKeys` | IOT/BOM/alert_system.py:115-187 | an animal-health check changes only its own device's keys, so one device never suppresses another |
| `Alerts.HeartRateNeedsPositiveReading` | IOT/BOM/alert_system.py:119-122 | a missing or non-positive heart rate never yields a heart-rate alert |
| `Alerts.TemperatureAlwaysChecked` | IOT/BOM/alert_system.py:150-167 | a violating temperature whose key is out of cooldown always yields a temperature alert, whatever the other readings are |
| `Alerts.SystemScan` | IOT/BOM/alert_system.py:189-209 | the check raises exactly for a non-numeric reading the rule compares; every tank alert names the given device, by default SPRINKLER_SYSTEM; only the key `water_tank` can change |
| `Alerts.WaterTankCooldownShared` | IOT/BOM/alert_system.py:194-207 | after any device's tank alert, no device's tank alert fires within the cooldown |
| `Alerts.AlertManager.constructor` | IOT/BOM/alert_system.py:40-70 | the rule table is the configured overlay of the defaults, and the cooldown map starts empty |
| `Alerts.AlertManager.RecordAlertTime` | IOT/BOM/alert_system.py:238-240 | sets the time of the given key and of no other key |
| `Alerts.AlertManager.TryAlert` | IOT/BOM/alert_system.py:229-240 | an alert fires only for a violation whose key was never recorded or whose cooldown has strictly elapsed; firing records the time |
| `Alerts.AlertManager.CheckEnvironmentalAlerts` | IOT/BOM/alert_system.py:92-113 | the alerts and new cooldown map are those of the environmental scan over the readings, in order |
| `Alerts.AlertManager.CheckAnimalHealthAlerts` | IOT/BOM/alert_system.py:115-187 | heart rate and SpO2 are checked only when positive, temperature always, then activity, each under its per-device key |
| `Alerts.AlertManager.CheckHeartRate` | IOT/BOM/alert_system.py:119-134 | a positive heart rate is checked against the `heart_rate` rule under the key `<id>_hr`; otherwise nothing changes |
| `Alerts.AlertManager.CheckSpo2` | IOT/BOM/alert_system.py:136-151 | a positive SpO2 reading is checked against the `spo2` rule under the key `<id>_spo2`; otherwise nothing changes |
| `Alerts.AlertManager.CheckTemperature` | IOT/BOM/alert_system.py:153-167 | any present temperature is checked against the `animal_temperature` rule under the key `<id>_temp` |
| `Alerts.AlertManager.CheckActivity` | IOT/BOM/alert_system.py:169-185 | low activity raises an INFO alert only when the key `<id>_activity` is out of its fixed 180-minute cooldown, and then records it |
| `Alerts.AlertManager.CheckSystemAlerts` | IOT/BOM/alert_system.py:189-209 | the alerts and new cooldown map of the system check, or the raised error with the map unchanged |
| `FarmHub.LastFoundIsLastFind` | IOT/BOM/smart_farm_bom_complete.py:561-568 | the RSSI scan reports the value of the last colon-part that yields one, and -999 when none does |
| `FarmHub.ScanRssi` | IOT/BOM/smart_farm_bom_complete.py:561-568 | the corrected RSSI loop (see Findings), reading the value after the `RSSI` label, computes that scan |
| `FarmHub.AsWrittenRssiOnDocumentedLine` | IOT/BOM/smart_farm_bom_complete.py:551-568 | the loop as written reports -999 for every line in the layout its own comment documents |
| `FarmHub.AsWrittenRssiCounterexample` | IOT/BOM/smart_farm_bom_complete.py:551-568 | on `+EVT:RXP2P,RSSI:-70,SNR:5:7b7d` the loop as written gives -999, the corrected one -70 |
| `FarmHub.CorrectedRssiOnLayout` | IOT/BOM/smart_farm_bom_complete.py:561-568 | in five colon-parts where only the second ends with `RSSI` and the third starts with an integer, the corrected scan reports that integer |
| `FarmHub.CorrectedRssiOnDocumentedLine` | IOT/BOM/smart_farm_bom_complete.py:551-568 | the corrected scan reads the RSSI that every documented line carries |
| `FarmHub.ParseLineAccepts` | IOT/BOM/smart_farm_bom_complete.py:552-573 | a line yields a message iff it has at least 4 colon-parts and its stripped last part is non-empty, hexadecimal and decodes |
| `FarmHub.ParseLineFields` | IOT/BOM/smart_farm_bom_complete.py:576-585 | a message has source `lora`, raw hex equal to the stripped last colon-part, the record that hex decodes to, and the RSSI of the corrected RSSI scan (see Findings) |
| `FarmHub.ParseLineOfHex` | IOT/BOM/smart_farm_bom_complete.py:556-585 | a line whose payload is the hex of some bytes yields exactly what the decoder makes of those bytes |
| `FarmHub.ParseDocumentedLine` | IOT/BOM/smart_farm_bom_complete.py:551-585 | a documented line with a non-empty payload yields the decoded record, the line's RSSI as the corrected RSSI scan (see Findings) reads it, and the payload's hex |
| `FarmHub.ReadMessage` | IOT/BOM/smart_farm_bom_complete.py:552-585 | the guard, the corrected RSSI loop (see Findings) and the decode steps compute that message |
| `FarmHub.Frame` | IOT/BOM/smart_farm_bom_complete.py:522-528 | framing gives lines without newlines and a rest without a newline |
| `FarmHub.FrameLossless` | IOT/BOM/smart_farm_bom_complete.py:522-523 | the lines and the rest, joined by newlines, are the received text |
| `FarmHub.FrameChunked` | IOT/BOM/smart_farm_bom_complete.py:517-523 | framing does not depend on how serial reads cut the text: a line cut between two reads is rebuilt from the kept rest |
| `FarmHub.FrameNoNewline` | IOT/BOM/smart_farm_bom_complete.py:522 | text without a newline stays whole in the buffer |
| `FarmHub.LineMessageFromMarkedLine` | IOT/BOM/smart_farm_bom_complete.py:523-527 | a line queues at most one message, and only if its stripped text carries `+EVT:RXP2P` |
| `FarmHub.LineMessagesFromMarkedLines` | IOT/BOM/smart_farm_bom_complete.py:522-527 | every queued message is the parse of some marker line |
| `FarmHub.LineMessagesAppend` | IOT/BOM/smart_farm_bom_complete.py:522-527 | the messages of consecutive runs of lines are queued in order |
| `FarmHub.LoRaReceiver.constructor` | IOT/BOM/smart_farm_bom_complete.py:509-510 | empty buffer, empty queue, last-data time set to the start |
| `FarmHub.LoRaReceiver.ParseLoraMessage` | IOT/BOM/smart_farm_bom_complete.py:548-585 | appends the line's message, if any, to the queue and changes nothing else; its RSSI comes from the corrected RSSI scan (see Findings) |
| `FarmHub.LoRaReceiver.HandleLine` | IOT/BOM/smart_farm_bom_complete.py:524-527 | strips the line and parses it only if it carries the marker |
| `FarmHub.LoRaReceiver.TakeLine` | IOT/BOM/smart_farm_bom_complete.py:522-527 | removes exactly the first finished line from the buffer and handles it |
| `FarmHub.LoRaReceiver.DrainLines` | IOT/BOM/smart_farm_bom_complete.py:522-527 | every finished line is removed and handled in order, and the unfinished rest stays in the buffer |
| `FarmHub.LoRaReceiver.Tick` | IOT/BOM/smart_farm_bom_complete.py:516-532 | new data refreshes the last-data time and queues the messages of the finished lines, with RSSI from the corrected RSSI scan (see Findings); with no data, a buffer idle for more than 5 s is cleared |
| `FarmHub.Classify` | IOT/BOM/smart_farm_bom_complete.py:966-986 | ear-tag iff `id`, `t` and `hr` are present; sprinkler iff not ear-tag and `type`, `device_id` and `timestamp` are present; unknown otherwise |
| `FarmHub.EarTagFrom` | IOT/BOM/smart_farm_bom_complete.py:991-1000 | missing readings count as 0; temperature, acceleration and SpO2 are `float()` of the record's values, decimal text included, and heart rate is `int()` of its value; the row fails exactly when `id` is missing or not text, or a reading does not convert |
| `FarmHub.EarTagDefaults` | IOT/BOM/smart_farm_bom_complete.py:991-1000 | a record with only `id`, `t` and `hr` gets 0 for acceleration and SpO2 and no timestamp of its own |
| `FarmHub.SprinklerFrom` | IOT/BOM/smart_farm_bom_complete.py:1032-1040 | the row exists iff `device_id`, `timestamp` and `type` are present; the type, timestamp, device id, moisture level, `rfid_uid`, `action` and `alert` are the record's, a missing optional one read as None |
| `FarmHub.ConvertNh3Voltage` | IOT/BOM/smart_farm_bom_complete.py:764-770 | 0 below 0.4 V, `(v - 0.4) * 50` otherwise, never negative |
| `FarmHub.ConvertCoVoltage` | IOT/BOM/smart_farm_bom_complete.py:772-778 | 0 below 0.1 V, `(v - 0.1) * 100` otherwise, never negative |
| `FarmHub.EarTagTakesPriority` | IOT/BOM/smart_farm_bom_complete.py:966-970 | a record that matches both kinds is processed exactly as ear-tag data, and no sprinkler row is stored |
| `FarmHub.OtherSprinklerTypesRaiseNothing` | IOT/BOM/smart_farm_bom_complete.py:1046-1052 | a sprinkler message of any type other than WATER_ALERT and MOISTURE_STATUS stores its row if the insert accepts it, and raises no alert |
| `FarmHub.AtMostOneRow` | IOT/BOM/smart_farm_bom_complete.py:958-976 | a record stores at most one row, and a record that stores none raises no alert and leaves the cooldowns alone |
| `FarmHub.NullTimestampNotStored` | IOT/BOM/smart_farm_bom_complete.py:176-206 | a record whose `timestamp` is null stores nothing, raises no alert and leaves the cooldowns alone, because the `NOT NULL` insert at 1003 or 1043 raises before any check |
| `FarmHub.UnbindableSprinklerNotStored` | IOT/BOM/smart_farm_bom_complete.py:1029-1058 | a sprinkler record with a list or object in a stored field stores nothing and reaches no system check, because the insert at 1043 raises into the `except` at 1056 |
| `FarmHub.EarTagKeepsOtherDevices` | IOT/BOM/smart_farm_bom_complete.py:1002-1018 | an ear-tag record leaves every other device's cooldown keys unchanged |
| `FarmHub.Hub.constructor` | IOT/BOM/smart_farm_bom_complete.py:849-852 | counters start at zero and no row is stored |
| `FarmHub.Hub.HandleMessage` | IOT/BOM/smart_farm_bom_complete.py:938-950 | counts every message taken off the queue; only a `lora` message is processed, and the state it leaves is that of the processing function |
| `FarmHub.Hub.ProcessRecord` | IOT/BOM/smart_farm_bom_complete.py:958-976 | ear-tag data is tried first, then sprinkler data; an unknown record changes nothing |
| `FarmHub.Hub.ProcessEarTag` | IOT/BOM/smart_farm_bom_complete.py:988-1027 | a readable ear-tag row, numeric text readings included, that the insert accepts is appended, its health checked and the alerts added to the counter; a row that cannot be built, or that the insert rejects (null or list/object timestamp, heart rate beyond 64 bits), changes nothing |
| `FarmHub.Hub.ProcessSprinkler` | IOT/BOM/smart_farm_bom_complete.py:1029-1058 | a readable sprinkler row that the insert accepts is appended, and one it rejects (null `timestamp` or `type`, a list or object, an integer beyond 64 bits) changes nothing; only WATER_ALERT and MOISTURE_STATUS rows are checked, and a check that raises adds no alerts but keeps the row |
| `BomHub.FirstRssiPartIsFirst` | IOT/BOM/bom_system.py:397-400 | the chosen part is the earliest comma-part containing `RSSI:`, and none is chosen only when no part has it |
| `BomHub.ExtractRssiOnLayout` | IOT/BOM/bom_system.py:397-403 | a line whose second comma-part is `RSSI:<r>` has the RSSI that `r` parses to |
| `BomHub.ExtractRssiOnDocumentedLine` | IOT/BOM/bom_system.py:397-403 | this hub reads the RSSI every documented line carries |
| `BomHub.ExtractRssiExample` | IOT/BOM/bom_system.py:397-403 | `+EVT:RXP2P,RSSI:-70,SNR:5:7b7d` gives -70 |
| `BomHub.DecodePayloadAccepts` | IOT/BOM/bom_system.py:376-378 | a payload decodes iff it is hexadecimal text whose bytes the decoder accepts |
| `BomHub.ParseLineAccepts` | IOT/BOM/bom_system.py:372-387 | a line yields a message iff it has at least 4 colon-parts and its stripped last part decodes; there is no separate empty-payload test |
| `BomHub.ParseLineFields` | IOT/BOM/bom_system.py:382-387 | a message has source `lora`, the decoded record and the RSSI extracted from the same line |
| `BomHub.ReadMessage` | IOT/BOM/bom_system.py:370-387 | the steps of the parser compute that message |
| `BomHub.NextBuffer` | IOT/BOM/bom_system.py:355-360 | after a read the buffer is emptied exactly when the text holds the marker and kept whole otherwise, so it never holds the marker |
| `BomHub.BomReceiver.constructor` | IOT/BOM/bom_system.py:345 | empty buffer and empty queue |
| `BomHub.BomReceiver.ParseLoraMessage` | IOT/BOM/bom_system.py:368-395 | appends the line's message, if any, and changes nothing else |
| `BomHub.BomReceiver.HandleLine` | IOT/BOM/bom_system.py:357-358 | parses the line, unstripped, only if it carries the marker |
| `BomHub.BomReceiver.Tick` | IOT/BOM/bom_system.py:349-360 | once the buffer holds the marker, every line with it is parsed, a partial last line included, and the buffer becomes empty; otherwise the buffer grows |
| `BomHub.PartialLineContrast` | IOT/BOM/bom_system.py:355-360 | a partial line behind a marker line stays in the full hub's buffer but is discarded here |
| `BomHub.UnterminatedLineContrast` | IOT/BOM/bom_system.py:355-360 | a marker line whose newline has not arrived is held back by the full hub but parsed at once here |
| `BomHub.Classify` | IOT/BOM/bom_system.py:615-646 | ear-tag iff `id` and `hr` are present; otherwise sprinkler iff `type` and `device_id` are present; otherwise unknown |
| `BomHub.Process` | IOT/BOM/bom_system.py:611-649 | stores the row of the record's kind with missing readings as 0 and numeric text read by `float()`, and nothing when the row cannot be built or the insert rejects it (a null in a `NOT NULL` column, a list or object, an integer beyond 64 bits) |
| `BomHub.ClassifyWithoutTemperature` | IOT/BOM/bom_system.py:615 | a record with `id` and `hr` but no `t` is ear-tag data here and not for the full hub |
| `BomHub.ClassifyEarTagAgrees` | IOT/BOM/bom_system.py:615 | every record the full hub takes as ear-tag data, this hub does too |
| `BomHub.SprinklerWithoutTimestamp` | IOT/BOM/bom_system.py:631-634 | a sprinkler record without `timestamp` stores nothing here and is unknown to the full hub |
| `BomHub.ConvertNh3Voltage` | IOT/BOM/bom_system.py:524-526 | never negative, and equal to 0 or `(v - 0.4) * 50`, whichever is larger |
| `BomHub.ConvertCoVoltage` | IOT/BOM/bom_system.py:528-530 | never negative, and equal to 0 or `(v - 0.1) * 100`, whichever is larger |
| `BomHub.ConvertersAgree` | IOT/BOM/bom_system.py:524-530 | both hubs' converters give the same ppm for every voltage |
| `CloudSync.MarkIdsLookup` | IOT/BOM/cloud_sync.py:185-190 | marking adds and removes no row, sets the listed rows synced and leaves every other flag |
| `CloudSync.MarkNothing` | IOT/BOM/cloud_sync.py:178-179 | marking an empty list changes nothing |
| `CloudSync.MarkTwice` | IOT/BOM/cloud_sync.py:185-190 | marking the same rows twice has the effect of marking them once |
| `CloudSync.UnsyncedAfterMark` | IOT/BOM/cloud_sync.py:185-190 | the rows still pending after marking are those pending before and not listed |
| `CloudSync.PendingAfterMark` | IOT/BOM/cloud_sync.py:104-108 | a successful batch of distinct pending rows lowers the pending count by exactly the count returned |
| `CloudSync.BackoffTotal` | IOT/BOM/cloud_sync.py:101-115 | n failed attempts sleep `2 ** n - 1` seconds in all |
| `CloudSync.FirstSuccessExists` | IOT/BOM/cloud_sync.py:101-108 | some attempt within the bound succeeds iff there is a first successful one, and that one is unique |
| `CloudSync.PassTotalPositive` | IOT/BOM/cloud_sync.py:55-68 | the pass total, and so status Success, is positive iff some table synced a non-empty batch |
| `CloudSync.PassTotalBounded` | IOT/BOM/cloud_sync.py:55-60 | a pass never reports more rows than the queries returned |
| `CloudSync.PassFlagsLookup` | IOT/BOM/cloud_sync.py:56-58 | after a pass each table's flags are what its own sync made of them, and every other table is unchanged |
| `CloudSync.ShownUrl` | IOT/BOM/cloud_sync.py:214 | a URL of at most 50 characters is shown as it is; a longer one as its first 50 characters and `...` |
| `CloudSync.ShownUrlBounded` | IOT/BOM/cloud_sync.py:214 | the shown URL has at most 53 characters and starts like the URL |
| `CloudSync.CloudSyncManager.constructor` | IOT/BOM/cloud_sync.py:18-35 | each setting takes its configured value or its default (300 s, batch 100, 3 retries); the status starts as `Never` |
| `CloudSync.CloudSyncManager.MarkSynced` | IOT/BOM/cloud_sync.py:176-193 | an empty list changes nothing; otherwise exactly the listed rows of that table become synced |
| `CloudSync.CloudSyncManager.SyncTableData` | IOT/BOM/cloud_sync.py:83-119 | no rows means no attempt and 0; otherwise attempts stop at the first success, which marks exactly the fetched rows and returns their count; if all `max_retries` attempts fail it returns 0 and marks nothing; after failed attempt k it sleeps `2 ** k` seconds |
| `CloudSync.CloudSyncManager.SyncTables` | IOT/BOM/cloud_sync.py:55-64 | after the loop over the tables the flags are those of one pass over them, the total is the sum of their counts and `failed_syncs` grows by the number that raised |
| `CloudSync.CloudSyncManager.SyncAllData` | IOT/BOM/cloud_sync.py:51-70 | the total is the sum of the table counts; each raising table adds one to `failed_syncs`; `total_synced` grows by the total; the status is Success iff the total is positive |
| `CloudSync.CloudSyncManager.SyncStatistics` | IOT/BOM/cloud_sync.py:195-215 | reports each table's number of pending rows and the API URL cut to at most 53 characters |

## Left out

- Serial I/O, `_init_lora` and its AT commands, `time.sleep` and the reconnect after a receive error: hardware and timing. A serial read is a parameter of `Tick`. The full hub's two `time.time()` readings in one pass are one reading.
- Threads, `queue.Queue` blocking, `task_done` and the `running` flags: the queue is a sequence that messages are appended to.
- UTF-8 decoding and `json.loads`: a function parameter. Nested JSON arrays and objects are not looked into.
- `FarmHub.ParseLine` and `BomHub.ParseLine`: a payload whose JSON is not an object (a top-level array, number, string, boolean or null) is treated as a decode failure, so no message is queued. Python queues it, and the full hub counts it in `lora_messages_received` (smart_farm_bom_complete.py:943); both hubs then store nothing for it: a list finds none of the keys and is logged as unknown (smart_farm_bom_complete.py:973, bom_system.py:646), and a number, boolean or null makes the key test raise into the `except` block (smart_farm_bom_complete.py:975, bom_system.py:648). A string payload is tested by substring, so a JSON string containing `id`, `t` and `hr` passes the test and then raises at `data['id']` (smart_farm_bom_complete.py:1026).
- `bytes.fromhex` skipping whitespace between digit pairs: only plain hex-digit pairs are accepted.
- `Text.ParseInt`: `int()` on text with underscores between digits or non-ASCII digits is treated as a failure.
- `Text.ParseFloat`: `float()` on text with an exponent (`1e3`), `inf`, `nan`, underscores between digits or non-ASCII digits is treated as a failure.
- Floating point: Python floats are modelled as exact `real` values. Rounding is not modelled, nor NaN and Infinity (which `json.loads` accepts and for which every comparison is false), nor the OverflowError of `float()` on a very large integer.
- `Alerts.AlertManager.CheckEnvironmentalAlerts`: a reading that is neither a number nor `None` makes `_evaluate_rule` raise TypeError (alert_system.py:96-100). Readings here are optional numbers, so that case is not modelled.
- `Alerts.RuleFromConfig`: an explicit `"condition": null` in a rule's configuration is read like a missing one and gives `max`. Python's `get('condition', 'max')` returns `None` there, and that rule then never fires. Likewise a null `severity` gives alerts of severity `None`, and a null `cooldown` makes the cooldown test raise TypeError once the key has been recorded; the model gives WARNING and 60 minutes.
- SQLite: inserts, queries, `get_active_alerts`, `acknowledge_alert` and the statistics queries. The cloud sync sees the database only as each row's synced flag. The result of `_get_unsynced_data` is a parameter, so its `LIMIT` and `ORDER BY created_at` are not modelled. A database error is modelled only at the query, before any send; an error while marking rows is not. The hubs' inserts are modelled only as whether `sqlite3` accepts the row's values: `NOT NULL` columns, bindable types and 64-bit integers. Other insert errors, such as a locked or full database, are not modelled.
- `requests.post`, SMTP and webhook sending, including the 60 s wait after HTTP 429: each send is an oracle boolean, and notifications are the set of channels an alert goes to.
- Alert messages (`{value:.2f}`, `title()`), alert ids and timestamps, `_create_alert`'s database insert. The low-activity check is kept, stated on the squared magnitude: `sqrt(s) < 0.3` exactly when `s < 0.09`.
- The hubs' clock readings (`timestamp` of queued messages and stored rows): left out of the data.
- `FarmHub.EarTagFrom`: a record whose `id` is not a string is treated as failing, although Python stores it when it is a boolean, a float or an integer within 64 bits. A null, list or object `id`, or a wider integer, makes the insert raise in Python too (the `device_id` column is `NOT NULL`), so nothing is stored either way.
- `FarmHub.SprinklerFrom`: a record whose `device_id` is not a string is treated as failing, although Python stores it when it is a boolean, a float or an integer within 64 bits. A null, list or object `device_id`, or a wider integer, makes the insert raise in Python too (the column is `NOT NULL`), so nothing is stored either way.
- `CloudSync.CloudSyncManager.constructor`: a setting present in the configuration with the value None is read like a missing one and gets its default. In Python it stays None. The full hub passes `api_url` this way when its INI file lacks the key (smart_farm_bom_complete.py:831-833). Every send to a None URL then fails, and `get_sync_statistics` raises TypeError at `len(self.api_url)`. The model instead sends to the default URL, and `SyncStatistics` always succeeds.
- `_sync_loop`, `force_sync_table` and `upload_camera_images`: a loop around `sync_all_data`, a try-wrapper around it, and a placeholder that only logs.
- The sensor drivers, camera, simulated data, `ConfigManager` and the Flask dashboard: device drivers and UI.

## Findings

| source | as written | input that shows it | evidently intended | confidence | as-written member | corrected member |
|---|---|---|---|---|---|---|
| IOT/BOM/smart_farm_bom_complete.py:561-568 | the RSSI loop takes the first comma-segment of a colon-part holding both `RSSI` and a comma. In the documented layout that part is `RXP2P,RSSI`, and its segment `RXP2P` is no number | `+EVT:RXP2P,RSSI:-70,SNR:5:7b7d` gives RSSI -999 | -70, the value after the `RSSI` label, as `bom_system.py`'s `_extract_rssi` reads it | high; not executed | `FarmHub.AsWrittenRssiCounterexample` | `FarmHub.CorrectedRssiOnDocumentedLine` |
