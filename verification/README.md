# VirtualPhone, verified

A Dafny model of the protocol core of the virtual phone: the SMS codecs, RTP and the jitter
buffer, VoLTE call control beside the Radio HAL, AKA authentication and Digest registration,
SIP, EAP and Parcel codecs, the RIL shim's JSON scanner, and the eUICC's profile store.

`dafny verify dfyconfig.toml` checks everything.

How it is laid out:

- `bits`, `digits`, `flags`: masks, shifts, OR and XOR defined bit by bit over natural numbers,
  and little- and big-endian numbers. `python`, `text`, `dicts`, `wrappers`: slices, `zfill`,
  `split`, `strip`, `int`, ordered dictionaries, options and results.
- `gsm7`, `utf16`, `sms_address`, `sms_tpdu`, `rp_data`, `multipart`, `sms_delivery`: the SMS
  stack, and a delivered message on its way to the phone; `sms_layout` says what each octet is.
- `rtp`, `jitter`, `jitter_map`, `media`: packets, the reorder buffer, the map it refines, and a
  whole stream through both; `rtp_layout` says what is on the wire and what the far end reads.
- `call_tables`, `call_steps`: the two call tables and every handler as one atomic step; an
  outgoing INVITE is its start, its 180 and its final response. `call_agreement` proves the
  invariant of all steps, `call_limits` where it stops, `call_media` the media half,
  `call_effects` what each step achieves, entry by entry, and `call_manager` is the two objects
  with their loops, each method proved to take its step.
- `rotation`, `milenage`, `milenage_standard`, `aka_runs`: AKA over an arbitrary function on
  blocks of 16 octets in place of AES, and that the code computes section 4.1 of 3GPP TS 35.206.
  `digest`, `registration`: challenge text, client answer, helper's verdict, over an arbitrary
  hash and any base64 that decodes what it encodes.
- `sip_message`, `sip_layout`, `eap_packet`, `parcel`: three codecs. `json_scan` is the C scanner,
  `json_grammar` and `json_objects` say what it finds in a printed JSON tree with arbitrary white
  space, `current_calls` is the response writer built on both, and `call_records` what the phone
  reads of each call.
- `isdp`, `profile_files`, `profile_store`, `profile_runs`: profiles, the path an ICCID leads to,
  the files, and every state of the disk between two writes; `profile_effects` says what each
  operation achieves.

Code that loops or updates fields is a method or a class here, proved against a function; the
lemmas about those functions are the results. `Err` stands for an exception that leaves the call
and `Endless` for a loop that never ends. Random numbers, clocks, the answers of the network and
the database, and the order in which a directory lists its files are parameters.

Four properties the code was meant to have are false of it, and are stated with the exact
condition under which they hold and a run that breaks them. Transferring a held call from the
management API leaves its HAL call held (`call_limits`). A re-INVITE on an outgoing call that is
not answered yet lets a later switch or conference move only one of the two tables, because the
HAL call has no Call-ID before the answer (`call_limits`). An active profile under the empty
ICCID is not switched off when another is enabled, and an ICCID is taken as a path without being
looked at, so that "./x" is stored over "x" and "../x" outside the directory (`profile_runs`).
Two more limits appear as conditions inside results: alphanumeric addresses survive up to six
characters, and a user data header in a GSM 7-bit message costs the message its last octets.

## Model

| member | source | states |
|---|---|---|
| Gsm7.EncodeGsm7 | ims/sms_pdu.py:528-560 | the streaming accumulator emits the packed septets of the text, ceil(7n/8) octets |
| Gsm7.PackedValue | ims/sms_pdu.py:528-560 | the octets, read as one little-endian number, are the sum of septet i times 2^(7i) |
| Gsm7.DecodeGsm7 | ims/sms_pdu.py:563-585 | the shifting loop on one big integer picks out the septets, including past the end of the data |
| Gsm7.GsmRoundTrip | ims/sms_pdu.py:528-585 | every text comes back, with unmappable characters as '?' |
| Gsm7.GsmLossless | ims/sms_pdu.py:52-64 | a text comes back unchanged if and only if every character is in the alphabet or is '?' |
| Utf16.Utf16RoundTrip | ims/sms_pdu.py:188-191 | UCS-2 text, surrogate pairs included, comes back unchanged |
| SmsLayout.AlphabetAscii | ims/sms_pdu.py:52-64 | letters, digits and the punctuation the alphabet shares with ASCII have their ASCII codes |
| SmsLayout.AlphabetOthers | ims/sms_pdu.py:52-64 | the commercial at, dollar sign, line ends and underscore have the codes of 3GPP TS 23.038 |
| SmsLayout.Utf16Units | ims/sms_pdu.py:238-250 | a character is its code, high octet first, or a surrogate pair |
| SmsAddress.EncodeBcd | ims/sms_pdu.py:591-598 | semi-octets in pairs with an F filler; an error exactly when a character is not a digit |
| SmsAddress.DecodeBcd | ims/sms_pdu.py:601-612 | the loop with its early stop gives the first n digits of the data, fillers skipped |
| SmsAddress.BcdRoundTrip | ims/sms_pdu.py:591-612 | digits of either parity come back from semi-octets |
| SmsLayout.BcdAt | ims/sms_pdu.py:591-598 | octet k holds digit 2k in its low and digit 2k + 1, or F, in its high half |
| SmsAddress.DigitAddressRoundTrip | ims/sms_pdu.py:75-115 | a numeric address of any type, plan and parity parses back from inside any data, at the right offset |
| SmsAddress.AlphanumericAddressRoundTrip | ims/sms_pdu.py:92-108 | an alphanumeric address parses back from inside any data, at the right offset, if and only if it has at most six characters; a longer one is read too long |
| SmsLayout.AddressLayout | ims/sms_pdu.py:75-115 | count of digits, type of address, semi-octets of the digits without plus signs |
| SmsLayout.WithoutPlusIs | ims/sms_pdu.py:104-115 | plus signs are all that is taken out of a number |
| SmsTpdu.SmsSubmit.ToBytes | ims/sms_pdu.py:203-255 | SMS-SUBMIT octets, the error cases, and the user data it leaves in the object |
| SmsTpdu.SmsSubmit.FromBytes | ims/sms_pdu.py:145-200 | parsing with a moving offset, truncated input and every validity-period format included |
| SmsTpdu.SubmitRoundTrip | ims/sms_pdu.py:145-255 | a submit that serializes parses back with all flags, validity period, address and coding if and only if its address is numeric or at most six characters |
| SmsTpdu.SubmitTextArrives | ims/sms_pdu.py:238-255 | without a user data header the text arrives, as GSM text or exactly as UCS-2 |
| SmsTpdu.SubmitUserDataArrives | ims/sms_pdu.py:238-250 | given user data arrives whole if and only if it is no longer than the length octet allows |
| SmsLayout.SubmitFlagWeights | ims/sms_pdu.py:203-236 | the first octet is the message type plus the weight of each flag that is set |
| SmsLayout.CodingOctets | ims/sms_pdu.py:33-38 | the data coding octets are 0, 4 and 8 |
| SmsLayout.SubmitLayout | ims/sms_pdu.py:203-255 | the octets of a submit, each field in its place, the length in septets or octets |
| SmsTpdu.SmsDeliver.ToBytes | ims/sms_pdu.py:335-381 | SMS-DELIVER octets, the error cases, and the user data it leaves in the object |
| SmsTpdu.SmsDeliver.FromBytes | ims/sms_pdu.py:290-332 | parsing, truncated input included |
| SmsTpdu.DeliverRoundTrip | ims/sms_pdu.py:290-381 | a deliver that serializes parses back with flags, address, coding and seven timestamp octets if and only if its address is numeric or at most six characters |
| SmsTpdu.DeliverTextArrives | ims/sms_pdu.py:335-381 | without a user data header the text arrives |
| SmsLayout.DeliverFlagWeights | ims/sms_pdu.py:335-360 | the first octet is the message type plus the weight of each flag that is set |
| SmsLayout.DeliverLayout | ims/sms_pdu.py:335-381 | the octets of a deliver, each field in its place |
| RpData.RpToBytes | ims/sms_pdu.py:453-477 | RP-DATA octets; an error when a field does not fit its length octet |
| RpData.RpFromBytes | ims/sms_pdu.py:480-512 | RP-DATA parsing field by field, short data an error |
| RpData.RpRoundTrip | ims/sms_pdu.py:453-512 | every RP-DATA message that serializes parses back, its reference modulo 256 |
| RpData.HexRoundTrip | ims/sms_pdu.py:827-852 | upper-case hex reads back to the octets |
| SmsLayout.RpLayout | ims/sms_pdu.py:453-477 | type, reference, then originator, destination and TPDU, each behind its length |
| SmsLayout.RpDirections | ims/sms_pdu.py:420-451 | the service centre is the destination of a message on its way up and the originator of one on its way down |
| SmsLayout.HexAt | ims/sms_pdu.py:843-852 | two upper-case digits an octet, high half first |
| RpData.RilRoundTrip | ims/sms_pdu.py:827-852 | the RIL's hex PDU gives back the service centre address and the TPDU |
| RpData.LayersRoundTrip | ims/sms_pdu.py:420-512 | any TPDU of up to 255 octets survives hex PDU and RP-DATA in both directions |
| RpData.SubmitStack | ims/sms_pdu.py:145-255 | a submit survives TPDU octets, hex PDU, RP-DATA and back, text and flags included, if and only if its address does |
| RpData.DeliverStack | ims/sms_pdu.py:290-381 | the same for a deliver on its way down, through RP-DATA and then the hex PDU |
| SmsDelivery.PhoneReads | ims/sms.py:303-321 | for any delivered text from a number, Android reads the sender's digits as an international number and the text in the GSM alphabet |
| Multipart.DecodeUdhConcat | ims/sms_pdu.py:689-723 | the header walk terminates and gives what a scan of the elements gives |
| Multipart.UdhFirstConcat | ims/sms_pdu.py:689-723 | in any list of elements the first concatenation element is found, 8-bit or 16-bit reference, whatever stands before it |
| Multipart.UdhRoundTrip | ims/sms_pdu.py:672-723 | an encoded concatenation header decodes to its reference, total and number, modulo 256 |
| Multipart.Splitter.NextConcatRef | ims/sms_pdu.py:661-669 | the module counter, wrapping at 256 |
| Multipart.Splitter.SplitMultipart | ims/sms_pdu.py:726-790 | one message when the text fits, else one per chunk under the next reference |
| Multipart.ChunksCover | ims/sms_pdu.py:751-759 | the chunks join to the text, none is empty and all but the last are full |
| Multipart.ChunkCount | ims/sms_pdu.py:751-759 | the number of chunks is the least that holds the text |
| Multipart.PartHeader | ims/sms_pdu.py:764-788 | the header of part i decodes to the reference, the total and i |
| Multipart.PartContents | ims/sms_pdu.py:764-788 | behind the six header octets part i carries chunk i, as UCS-2 exactly or as the packed septets of its cleaned text |
| SmsLayout.LimitsFit | ims/sms_pdu.py:655-658 | the four limits are the most characters that fit 140 octets, with six of header in a part |
| Multipart.PartOnTheWire | ims/sms_pdu.py:781-788 | a part sent and parsed keeps its user data, in GSM 7-bit all but its last six octets |
| Multipart.ReassembleMultipart | ims/sms_pdu.py:793-821 | a text is returned if and only if the part numbers can be arranged as 1 to the total, and it is their concatenation in that order |
| Multipart.MultipartArranges | ims/sms_pdu.py:726-821 | any permutation of a split text's parts reassembles to the text if it needs at most 255 parts, and to nothing otherwise |
| Multipart.SentPartsArrange | ims/sms_pdu.py:726-821 | the same of parts whose number, total and text are read from the sent user data: together they are what the coding carries of the text, for UCS-2 also as the receiver parses them |
| Rtp.ToBytes | ims/rtp.py:70-88 | header and payload octets, the CSRC loop, errors of the fields that do not fit |
| Rtp.FromBytes | ims/rtp.py:91-141 | parsing with extension and padding, short data an error |
| Rtp.RtpRoundTrip | ims/rtp.py:70-141 | a packet of version 2 without padding and extension parses back if and only if each field fits its width |
| RtpLayout.PacketLayout | ims/rtp.py:70-88 | the octets of a packet, field by field, most significant octet first |
| RtpLayout.StandardReads | ims/rtp.py:91-141 | a packet laid out as section 5.1 of RFC 3550 has it, with any header extension and any padding, reads as its fields and its bare payload |
| Jitter.JitterBuffer.Put | ims/media.py:212-250 | duplicate, late and full-buffer cases, the sorted insertion and every counter |
| Jitter.JitterBuffer.Get | ims/media.py:252-284 | the recursive get terminates and emits, drops or waits as specified |
| Jitter.JitterBuffer.Reset | ims/media.py:296-301 | reset forgets packets and slot but not the counters |
| Jitter.PutContents | ims/media.py:223-250 | put keeps the buffered packets and adds one, loses only the oldest to a full buffer, or refuses |
| Jitter.EveryRun | ims/media.py:201-284 | on every run, wrap-around included: the next slot is the first plus played plus lost modulo 65536, the buffer is sorted without duplicates, and every packet received is a duplicate, late, played, buffered, evicted or refused |
| Jitter.GetStep | ims/media.py:252-284 | one get drops only late packets, then plays or loses exactly one slot, or waits |
| Jitter.GetEmitsSlot | ims/media.py:259-284 | an emitted slot carries the payload stored under its number, and the loss marker if there is none, exactly while the numbers have not wrapped below it |
| Jitter.GetLeavesRest | ims/media.py:259-284 | within 2^15 of the slot, get removes what is behind or at the slot and nothing ahead of it |
| Jitter.WrapHidesSlot | ims/media.py:245-250 | after putting 65535 and then 0, a get replaces the stored payload of slot 65535 by the loss marker |
| JitterMap.RefinesMap | ims/media.py:212-284 | on every run of puts, gets and resets in which no get finds anything 2^15 or more from its slot, the deque gives out exactly what a map from slot to payload gives out, evictions and late drops included |
| Media.MediaSession.Hold | ims/media.py:661-673 | an active session is held, another is left as it is |
| Media.MediaSession.Resume | ims/media.py:675-685 | an active session is resumed, another is left as it is |
| Media.MediaSession.SendFrame | ims/media.py:478-506 | active and not held, one packet with the next number and timestamp goes out; otherwise nothing changes |
| Media.MediaSession.SendDtmf | ims/media.py:535-579 | for a key, the start, ongoing and three end events with consecutive numbers, one timestamp and the marker on the first, up to the first duration that does not fit; for anything else, nothing |
| RtpLayout.WireReads | ims/media.py:478-506 | datagram i reads as number i modulo 65536, the clock of the audio before it, the session's source, and the item's marker and payload |
| RtpLayout.DtmfEvents | ims/media.py:546-560 | a key sends 0, 1, 2 or 5 events of its code: durations of a third, two thirds and the whole, the marker on the first alone, the end flag on the last three alone |
| RtpLayout.SamplesCut | ims/media.py:544 | the duration in samples is cut towards zero |
| RtpLayout.KeyCodes | ims/codec.py:80-85 | the sixteen keys and their codes |
| Media.EventArrives | ims/codec.py:190-202 | an event's payload reads back with its code, end flag, volume and duration |
| Media.MediaSession.OnRtpReceived | ims/media.py:581-606 | audio goes to the buffer, DTMF does not, unreadable packets change nothing |
| Media.StreamInOrder | ims/media.py:212-284 | for loss-free in-order delivery of any prefix and any interleaving of gets, buffer and output stand where the sent items say |
| Media.StreamOutput | ims/media.py:478-606 | what has been played is a prefix of the sent frames with one loss marker for each DTMF packet between frames, and never goes past the last audio packet delivered |
| CallManager.RadioHal.Dial | hal/radio_hal.py:438-470 | a dialling call under the next index, and the start of its INVITE |
| CallManager.RadioHal.Answer | hal/radio_hal.py:472-485 | the first incoming call and its session become active |
| CallManager.RadioHal.Hangup | hal/radio_hal.py:487-500 | the call and, under its Call-ID, its session are gone |
| CallManager.RadioHal.SwitchWaitingOrHoldingAndActive | hal/radio_hal.py:502-531 | with a waiting call, all active ones are held and it is answered; otherwise the manager swaps |
| CallManager.RadioHal.SeparateConnection | hal/radio_hal.py:544-559 | a conference party leaves the conference and is held |
| CallManager.RadioHal.ExplicitCallTransfer | hal/radio_hal.py:561-590 | on success both calls are gone; on failure nothing has changed |
| CallManager.RadioHal.HangupAll | hal/radio_hal.py:681-688 | every listed call's session is hung up and the list is empty |
| CallManager.RadioHal.PowerOff | hal/radio_hal.py:209-218 | the list is empty and the sessions stay |
| CallManager.RadioHal.UpdateCallState | hal/radio_hal.py:690-700 | the call with the index, if any, changes state and nothing else |
| CallManager.RadioHal.IncomingCall | hal/radio_hal.py:702-741 | waiting beside an active call, else incoming; or forwarded |
| CallManager.CallManager.OnRinging | ims/volte.py:725-737 | 180 moves a pending outgoing session and its HAL call to ringing |
| CallManager.CallManager.OnInviteOk | ims/volte.py:243-281 | 200 makes session and HAL call active and gives the HAL call its Call-ID |
| CallManager.CallManager.OnInviteFailed | ims/volte.py:279-290 | failure drops session and HAL call, or leaves the call behind if the session is gone |
| CallManager.CallManager.OnInvite | ims/volte.py:292-344 | a new INVITE rings or is forwarded, a known one is a re-INVITE |
| CallManager.CallManager.OnReInvite | ims/volte.py:826-872 | hold or resume by the far end, in both tables and the media |
| CallManager.CallManager.HoldCall | ims/volte.py:401-462 | only an active session is held, with media and HAL call |
| CallManager.CallManager.ResumeCall | ims/volte.py:464-525 | only a held session is resumed, with media and HAL call |
| CallManager.CallManager.SwapCalls | ims/volte.py:527-550 | the first active session is held and the first held one, as they were before, resumed |
| CallManager.CallManager.ConferenceCalls | ims/volte.py:554-597 | the last active and last held session are joined; succeeds exactly when both exist |
| CallManager.CallManager.TransferCall | ims/volte.py:601-657 | an accepted REFER leaves the session active and pending |
| CallManager.CallManager.AttendedTransferCall | ims/volte.py:1026-1100 | an accepted REFER with Replaces marks the first session and changes no state |
| CallManager.CallManager.OnRefer | ims/volte.py:874-918 | the far end's REFER hangs up the session and dials its target |
| CallManager.CallManager.OnBye | ims/volte.py:755-824 | BYE and CANCEL drop the session and the HAL call with its Call-ID |
| CallManager.CallManager.OnNotify | ims/volte.py:920-980 | a final success hangs up a pending transfer, a failure clears it |
| CallEffects.DialEffect | hal/radio_hal.py:438-470 | one session and one dialling HAL call more, under the next index and ports, and an INVITE pending |
| CallEffects.RingingEffect | ims/volte.py:725-737 | a 180 rings that session and that HAL call alone |
| CallEffects.InviteOkEffect | ims/volte.py:243-281 | a 200 makes that session active with its media and that HAL call active under the Call-ID, and no other |
| CallEffects.InviteFailedEffect | ims/volte.py:279-290 | a failure removes that session and that HAL call, or leaves the HAL call when the session was gone |
| CallEffects.IncomingEffect | ims/volte.py:292-344 | one ringing session and one HAL call more, waiting exactly when another is active |
| CallEffects.ForwardedEffect | ims/volte.py:292-344 | a forwarded INVITE leaves no session behind but the outgoing one |
| CallEffects.ReInviteEffect | ims/volte.py:826-872 | the session, its media and its HAL call are held or active, and no other entry changes |
| CallEffects.HoldEffect | ims/volte.py:401-462 | an active session is held, its media paused, its HAL call holding; nothing else changes |
| CallEffects.ResumeEffect | ims/volte.py:464-525 | a held session is active, its media running, its HAL call active; nothing else changes |
| CallEffects.SwapEffect | ims/volte.py:527-550 | the first active session is held and the first held one active, with media and HAL calls to match; every other session and HAL call is unchanged |
| CallEffects.SwapTwice | ims/volte.py:527-550 | with one active and one held session, two swaps give back both tables |
| CallEffects.ConferenceEffect | ims/volte.py:554-597 | the last held session is active, and the HAL calls of both are active in a conference |
| CallEffects.NoConference | ims/volte.py:554-573 | without an active or a held session nothing changes |
| CallEffects.TransferEffect | ims/volte.py:601-657 | exactly an accepted REFER of an active or held session makes it active and pending |
| CallEffects.AttendedEffect | ims/volte.py:1026-1100 | exactly an accepted REFER of an active or held session beside a known one makes it pending |
| CallEffects.AnswerEffect | hal/radio_hal.py:472-485 | the first incoming HAL call and the session with its index are active, and no other entry changes |
| CallEffects.SwitchEffect | hal/radio_hal.py:502-525 | with a waiting call: every active HAL call and session is held, and the waiting one is answered |
| CallEffects.SwitchSwaps | hal/radio_hal.py:526-531 | without a waiting call, a switch is a swap |
| CallEffects.SeparateEffect | hal/radio_hal.py:544-559 | a conference party is held outside the conference, with its session; nothing else changes |
| CallEffects.HalTransferEffect | hal/radio_hal.py:561-590 | accepted, the last active and last holding HAL calls are gone, and the held one's session is active and pending |
| CallEffects.NoHalTransfer | hal/radio_hal.py:561-590 | refused, or without one of the two calls or the session, nothing changes |
| CallEffects.HangupEffect | hal/radio_hal.py:487-500 | exactly the HAL call and the session of its Call-ID are gone |
| CallEffects.HangupAllEffect | hal/radio_hal.py:681-688 | no HAL call is left, and exactly the sessions of their Call-IDs are gone |
| CallEffects.ByeEffect | ims/volte.py:755-824 | exactly the session and the HAL call with its Call-ID are gone |
| CallEffects.ApiHangupEffect | ims/volte.py:661-715 | exactly the session is gone |
| CallEffects.ReferEffect | ims/volte.py:874-918 | the session is gone and one dialling call more is there |
| CallEffects.NotifyEffect | ims/volte.py:920-980 | a failure clears the pending transfer, a final success removes the session if one was pending, anything else changes nothing |
| CallEffects.UnknownEffect | ims/volte.py:401-408 | requests for an unknown Call-ID change nothing |
| CallAgreement.MoveKeeps | ims/volte.py:401-525 | writing a session and its HAL call over in matching states keeps the invariant |
| CallAgreement.StepKeeps | ims/volte.py:180-980 | every handler step within the guard keeps the invariant of both tables |
| CallAgreement.TablesAgree | hal/radio_hal.py:438-590 | on every run, a session and a HAL call with one index are in matching states, indices are unique and port pairs disjoint |
| CallLimits.GuardIsExact | ims/volte.py:645-650 | from any state of the invariant, a step with new Call-IDs leaves the tables in agreement if and only if it meets the guard |
| CallLimits.HeldTransferRun | ims/volte.py:640-650 | dial, answer, hold and transfer: active session beside a held HAL call |
| CallLimits.EarlyReinviteRun | hal/radio_hal.py:516-527 | an early re-INVITE, a waiting call and a switch: active session beside a held HAL call |
| CallLimits.EarlyConferenceRun | ims/volte.py:577-589 | an early hold, a second call answered and a conference: active session beside a held HAL call |
| CallMedia.PauseIsExact | ims/volte.py:645-650 | a step keeps every media session paused exactly when its call is held if and only if it transfers no held session with media |
| CallMedia.EveryRunMedia | ims/volte.py:401-525 | on every run without such a transfer, media is paused exactly when the call is held |
| Rotation.Rotate | euicc/crypto/milenage.py:71-83 | the byte loop computes the rotated block, with floor division of negative shifts |
| Rotation.RotateIsRotation | euicc/crypto/milenage.py:71-83 | for every length and shift the bit string, most significant bit first, is rotated left by the shift modulo its length |
| Rotation.RotationsAdd | euicc/crypto/milenage.py:71-83 | two rotations are one by the sum of the shifts |
| Rotation.RotatedValue | euicc/crypto/milenage.py:71-83 | read big-endian, rotation moves the top k bits of the number below the rest |
| MilenageStandard.FollowsStandard | euicc/crypto/milenage.py:85-151 | for any block function, MAC-A, MAC-S, RES, CK, IK, AK and AK* are the bits of OUT1 to OUT5 that section 4.1 of TS 35.206 defines over bit strings, with its rotations and constants |
| MilenageStandard.OpcIsStandard | euicc/crypto/milenage.py:55-59 | OPc is E[OP] xor OP, over bit strings |
| Milenage.AutnParts | euicc/crypto/milenage.py:153-191 | AUTN is SQN xor AK in six octets, AMF in two, MAC-A in eight |
| Milenage.AcceptsFreshTokens | euicc/crypto/milenage.py:153-191 | for any block function, AUTN is accepted, with the network's RES, CK and IK, if and only if it is a genuine token whose SQN is at least the stored one |
| Milenage.GeneratedToken | euicc/crypto/milenage.py:85-191 | a generated token is accepted exactly when its SQN is at least the stored one |
| Milenage.AutsTellsSqn | euicc/crypto/milenage.py:193-204 | AUTS fails exactly outside 48 bits; otherwise the stored SQN and its MAC-S can be read from it |
| AkaRuns.GenerateQuintuplets | scripts/provision_epdg.py:78-116 | the batch has the vector for the SQN 32 further each time; an error exactly when an SQN does not fit six octets |
| AkaRuns.NaiText | scripts/provision_epdg.py:85-93 | the permanent identity, written out for every IMSI |
| AkaRuns.VectorAuthenticates | scripts/provision_epdg.py:98-113 | a vector authenticates with its own answer exactly when its SQN is at least the stored one |
| AkaRuns.EveryDeliveryAccepted | ims/registration.py:245-263 | on every run with losses, from a USIM not ahead of the network, every delivered vector is accepted; issuing stops exactly when the SQN leaves 48 bits |
| Digest.ReadParams | ims/registration.py:228-235 | the comma and equals loop, shared by the SIP client |
| Digest.DigestRoundTrip | ims/sip_client.py:448-456 | every list of plain parameters written in the header syntax reads back value for value |
| Registration.AuthHelper.GenerateAuthVector | scripts/scscf_auth_helper.py:78-160 | vector, cache and stored SQN, with OP or OPc, unknown subscribers, bad hex and failed database updates |
| Registration.VectorEffect | scripts/scscf_auth_helper.py:78-160 | no vector exactly for an unknown subscriber or missing keys, an error exactly for bad keys, AMF or SQN, both changing nothing; otherwise that subscriber's SQN steps by 32 if stored, and its cached vector alone is replaced |
| Registration.VectorHolds | scripts/scscf_auth_helper.py:113-158 | a USIM with the same keys accepts the vector's nonce for every SQN up to the subscriber's, and answers with the vector's RES, CK and IK, each under its own name |
| Registration.KeysRead | scripts/scscf_auth_helper.py:99-111 | Ki as the record has it, and OPc as it has it or as the standard derives it from OP |
| Registration.ChallengeSpelled | scripts/scscf_auth_helper.py:259-264 | the challenge header, character by character |
| Registration.RealmText | scripts/scscf_auth_helper.py:153 | the realm, written out for every IMSI |
| Registration.AuthReads | ims/sip_client.py:429-488 | the header that answers a challenge reads back with the username, the challenge's realm, the URI, count, cnonce and qop, and the RFC 2617 digest over all of them |
| Registration.AnswerSpelled | ims/sip_client.py:480-488 | the answering header, character by character |
| Registration.FirstCount | ims/sip_client.py:462 | the count of a first answer is 00000001 |
| Registration.Ue.ComputeResponse | ims/registration.py:217-277 | no answer without a usable nonce or a valid AUTN, and then the SQN stays; otherwise it steps by one |
| Registration.UeAnswersFresh | ims/registration.py:217-277 | for any text at all: the UE answers exactly when its nonce decodes to RAND and a genuine token whose SQN is at least its own, and its SQN steps by one exactly then |
| Registration.DigestsAgree | scripts/scscf_auth_helper.py:180-220 | the client answers the helper's challenge if and only if the subscriber's SQN is at least its own, and the helper then accepts the header it sends |
| Registration.VerdictExact | scripts/scscf_auth_helper.py:180-220 | for a collision-free hash, the response written out as in section 3.2.2.1 of RFC 2617 is accepted if and only if it was made with the cached RES and the cached nonce |
| Registration.PlainVerdictExact | scripts/scscf_auth_helper.py:180-220 | the same without a quality of protection |
| Registration.HeaderVerdict | scripts/scscf_auth_helper.py:180-220 | a header that answers any challenge with any password is accepted if and only if the challenge's nonce and the password are the cached nonce and RES |
| Registration.EveryAnswerAccepted | scripts/scscf_auth_helper.py:133-145 | over any number of attempts, whichever challenges are lost, at most as many of those the UE gets fail as SQNs were not stored, and none when all were |
| SipMessages.SipMessage.Parse | ims/sip_client.py:102-137 | the line loop fills the headers up to the first empty line and joins the rest to the body; bad status lines are errors |
| SipMessages.SipMessage.Serialize | ims/sip_client.py:139-163 | sets Content-Length in the object and prints it |
| SipMessages.SipRoundTrip | ims/sip_client.py:102-163 | every well-formed request or response, with any body, parses back with the Content-Length that printing set |
| SipLayout.ContentLength | ims/sip_client.py:148-152 | the one Content-Length is the number of octets of the body's UTF-8 form, or for no body 0 unless it was set; no other header changes |
| SipLayout.RequestText | ims/sip_client.py:139-163 | the text of a request, line by line |
| SipLayout.ResponseText | ims/sip_client.py:139-163 | the text of a response, line by line |
| SipLayout.HeaderLineReads | ims/sip_client.py:125-131 | a header line with any white space around name and value sets exactly that header |
| SipLayout.NoColonIgnored | ims/sip_client.py:125-131 | a line without a colon sets none |
| Text.JoinSplit | ims/sip_client.py:105-135 | joining what splitting gave returns the text |
| Text.ParseIntText | ims/sip_client.py:118 | a printed integer, negative ones included, is read back |
| EapPackets.Parse | euicc/crypto/eap_aka.py:98-135 | the attribute loop, its truncated and unknown inputs, and where it never ends |
| EapPackets.LoopEnds | euicc/crypto/eap_aka.py:119-127 | turn by turn, the loop stops at what parsing returns, or never stops, which happens exactly when it comes to a zero length octet |
| EapPackets.Serialize | euicc/crypto/eap_aka.py:137-160 | the octets, or an error where a field does not fit |
| EapPackets.PrintsWhenFits | euicc/crypto/eap_aka.py:137-160 | a packet serializes if and only if its fields are octets, its values have at most 1016 octets and the whole fits 16 bits |
| EapPackets.PacketLayout | euicc/crypto/eap_aka.py:137-160 | the octets of a packet: header with the length of the whole, and each attribute where the ones before it end, with its length in words, its value and its zeros |
| EapPackets.EapRoundTrip | euicc/crypto/eap_aka.py:98-160 | every such packet parses back with each value padded with zeros to whole words |
| EapPackets.SecondTrip | euicc/crypto/eap_aka.py:141-148 | a second trip changes nothing, and aligned values survive the first |
| EapPackets.VerdictRoundTrip | euicc/crypto/eap_aka.py:107-140 | success and failure keep code and identifier only |
| Parcels.Parcel.Ensure | ril_shim/ril_shim.c:113-118 | doubling terminates, leaves room, keeps the contents and at most doubles what is needed |
| Parcels.Parcel.WriteI32 | ril_shim/ril_shim.c:128-132 | four little-endian octets are appended |
| Parcels.Parcel.WriteStr16 | ril_shim/ril_shim.c:167-193 | count, units, terminator and padding are appended inside the buffer, up to a whole word |
| Parcels.Parcel.ReadI32 | ril_shim/ril_shim.c:120-126 | the value at the position, or 0 past the end |
| Parcels.Parcel.ReadStr16 | ril_shim/ril_shim.c:138-162 | the string, or none for a null and, at the end, for one that does not fit |
| Parcels.I32RoundTrip | ril_shim/ril_shim.c:120-132 | every int32, negative ones included, reads back |
| Parcels.ParcelRoundTrip | ril_shim/ril_shim.c:113-193 | any list of int32s, nulls and strings reads back value for value, ending where the data ends, on a word boundary |
| Parcels.I32Layout | ril_shim/ril_shim.c:128-132 | the four octets of every int32 as a two's complement number, least significant first |
| Parcels.Str16Layout | ril_shim/ril_shim.c:167-193 | the octets of a string: count, units, and zeros to the first whole word with room for a terminator; a null is -1 |
| Parcels.StringReads | ril_shim/ril_shim.c:138-162 | a string in any data reads as its units below 128, '?' for every other |
| Parcels.AsciiUnchanged | ril_shim/ril_shim.c:153-158 | ASCII strings come back unchanged |
| JsonScan.JsonFindKey | ril_shim/ril_shim.c:216-260 | the character scan with depth and string flag, for any NUL-terminated buffer |
| JsonScan.JsonGetStr | ril_shim/ril_shim.c:270-284 | the text up to the closing quote, or none, for any NUL-terminated buffer |
| JsonScan.JsonSkipObject | ril_shim/ril_shim.c:669-684 | the scan for the closing brace, for any NUL-terminated buffer |
| JsonGrammar.KeyLookup | ril_shim/ril_shim.c:216-260 | in any printed object, whatever its nesting and what follows it, the value of the first outer member of the name is found; with none the scan continues behind the object |
| JsonGrammar.KeyAbsent | ril_shim/ril_shim.c:216-260 | for an object alone in the buffer, none is returned if and only if no outer member has the name |
| JsonGrammar.StringLookup | ril_shim/ril_shim.c:270-284 | a string member is returned exactly, any other value gives none |
| JsonGrammar.IntegerLookup | ril_shim/ril_shim.c:263-267 | a member that is an integer from -2^31 to 2^31-1 is returned with its value and sign |
| JsonObjects.ObjectEnd | ril_shim/ril_shim.c:669-684 | wherever a printed object stands, the brace found is its own |
| CurrentCalls.ResponseCurrentCalls | ril_shim/ril_shim.c:692-758 | both passes, written to the parcel |
| CurrentCalls.TwoPassesAgree | ril_shim/ril_shim.c:700-730 | for every buffer the second pass writes as many records as the first counted |
| CurrentCalls.CountMatchesRecords | ril_shim/ril_shim.c:692-758 | for every buffer the response is a count and then that many records of thirteen values |
| CurrentCalls.CallsWritten | ril_shim/ril_shim.c:692-758 | for a printed list of objects the response is their number and the record of each, from its own text |
| CurrentCalls.FieldIsMember | ril_shim/ril_shim.c:742-751 | a record's number and name are the object's own members, or empty |
| CurrentCalls.ResponseArrives | ril_shim/ril_shim.c:692-758 | the matching reads of a written response give its values and end with it |
| CallRecords.CallsRead | ril_shim/ril_shim.c:692-758 | for a printed list of call objects the phone reads their number, and of the k-th, in this order: state or 0, index or k + 1, 145, isMpty, isMT, 0, 1, 0, number, numberPresentation, name, 0, 0, each the object's first member of that name |
| CallRecords.IntRead | ril_shim/ril_shim.c:263-267 | the integer of a member or its default |
| CallRecords.TruthRead | ril_shim/ril_shim.c:285-292 | the truth of a member or its default |
| CallRecords.TextRead | ril_shim/ril_shim.c:742-751 | the text of a member or nothing |
| Isdp.ProfileRoundTrip | euicc/isdp.py:109-152 | every profile survives its dictionary |
| ProfileEffects.LoadDefaults | euicc/isdp.py:132-152 | what a dictionary of the required keys alone gives |
| ProfileFiles.DotSlashSame | euicc/euicc.py:115-124 | an ICCID and the same with "./" before it lead to one file |
| ProfileFiles.PlainInside | euicc/euicc.py:115-124 | an ICCID without a slash leads to a file of its own name in the directory, if that can be written |
| ProfileFiles.ParentOutside | euicc/euicc.py:115-124 | an ICCID with "../" before it leads to no file of the directory |
| ProfileStore.VirtualEuicc.Initialize | euicc/euicc.py:89-113 | the loading loop, for any order of the files, unreadable ones skipped |
| ProfileStore.VirtualEuicc.InstallProfile | euicc/euicc.py:128-176 | memory, free space and the file the ICCID leads to; nothing changes when the package is refused, and memory alone when the file cannot be opened |
| ProfileStore.VirtualEuicc.EnableProfile | euicc/euicc.py:178-207 | the active profile is switched off and saved before the new one is switched on and saved; a save that fails stops it there |
| ProfileStore.VirtualEuicc.DisableProfile | euicc/euicc.py:209-227 | the profile is off in memory and on disk and no longer active |
| ProfileStore.VirtualEuicc.DeleteProfile | euicc/euicc.py:229-243 | the profile is gone from memory and disk |
| ProfileStore.VirtualEuicc.IncrementProfileSqn | euicc/isdp.py:77-80 | the SQN steps in memory only |
| ProfileEffects.InstallAchieves | euicc/euicc.py:128-176 | an accepted package adds exactly one profile, disabled, with the package's own fields, in memory and on disk |
| ProfileEffects.EnableAchieves | euicc/euicc.py:178-207 | enabling an installed profile returns true, makes it the active and the only enabled one, in memory and on disk, and changes no profile but in state |
| ProfileEffects.DisableAchieves | euicc/euicc.py:209-227 | disabling an installed profile leaves it disabled in memory and on disk, not active, and all else unchanged |
| ProfileEffects.DeleteAchieves | euicc/euicc.py:229-243 | a deleted profile is in neither memory nor the directory, and all else is unchanged |
| ProfileEffects.RefusedUnchanged | euicc/euicc.py:128-143 | a refused operation changes neither memory nor disk |
| ProfileEffects.IncrementAchieves | euicc/isdp.py:77-80 | that profile's SQN alone, by one, and nothing on disk |
| ProfileRuns.RunKeeps | euicc/euicc.py:115-243 | every operation within the guard keeps memory and disk in agreement up to the SQN, and after each write at most one profile is enabled on disk: the old one or the new one |
| ProfileRuns.GuardIsExact | euicc/euicc.py:115-202 | an operation keeps agreement and the active profile if and only if it installs no profile whose path leaves the directory, cannot be written or is an installed profile's file, and enables no other profile while the one under the empty ICCID is active |
| ProfileRuns.AliasRun | euicc/euicc.py:115-119 | installing an ICCID and then the same with "./" before it: memory holds both, and a reload has lost the first |
| ProfileRuns.EmptyIccidRun | euicc/euicc.py:194-204 | two installs and two enables that leave two enabled files |
| ProfileRuns.OrderIrrelevant | euicc/euicc.py:101-113 | a reload depends on the disk, not on the order of its files |
| ProfileRuns.ReloadSound | euicc/euicc.py:101-113 | after a crash at any such disk the reloaded eUICC is sound and its active profile is the enabled file's |
| ProfileRuns.RestartRestores | euicc/euicc.py:89-113 | a restart brings back every profile up to a lagging SQN, and the same active one |
| ProfileRuns.EveryRunAgrees | euicc/euicc.py:101-243 | on every run within the guard, with crashes between writes and reloads in any order, memory and disk agree and the active ICCID names exactly the enabled profile |

## Left out

- Sockets, asyncio scheduling, HTTP, databases, logging and the management API's own code; each SIP exchange is an event with its response.
- AES, MD5, base64, CMAC and HMAC; they are arbitrary functions, base64 with its inverse law.
- Gsm7.GsmRoundTrip: the GSM extension table is not in the code, so escaped characters are '?'.
- SmsAddress.EncodeBcd: non-ASCII digits, which Python's int accepts, are errors here.
- Multipart.PartOnTheWire: a GSM 7-bit part is not parsed back to its text, because the length octet ignores the header and no fill bits are inserted.
- SCTS encoding and decoding beyond seven octets, RP-ACK, and status reports.
- Rtp.RtpRoundTrip: packets with the padding or extension flag, which serializing drops.
- Arrival times, the jitter estimate and RTCP, which are floating point or reports.
- What the far end does with a DTMF event beyond reading it, and the sockets a session sends on.
- Entries of the call tables and of the profile dictionary are values here, not shared objects; holding a reference across an await is written as looking the entry up again.
- Calls before the manager has started, its stop, the counters of the management API, mute, USSD, call-forwarding rules and the SDP text; forwarding and SDP direction are parameters.
- CallAgreement.TablesAgree: a HAL call without a session, or a session without a HAL call, is allowed, as NOTIFY, API hangups and explicit transfer leave them.
- CallManager.CallManager.OnRinging: a 180 counts for the first INVITE only, because every later request is one step with its response.
- Registration.DigestsAgree: the SIP proxy that takes the Authorization header apart is not part of this model; the header is read by the client's own rules, and names are free of white space, commas and quotes.
- Registration.EveryAnswerAccepted: attempts come one after another; what becomes of an answer to an older challenge is in HeaderVerdict, for a hash without collisions.
- Registration.VerdictExact: the hash's digests differ for different texts even in one case of letters, which MD5 promises only in practice.
- The security record's default values, IPsec headers and re-registration timers.
- SipMessages.SipMessage.Parse: takes the text that decoding with replacement gives, so octets that are not UTF-8 are outside.
- SipMessages.SipRoundTrip: text stands for its UTF-8 octets.
- Text.ParseInt: non-ASCII digits.
- Text.Lower: letters outside ASCII, which no hash contains.
- EAP key derivation and MACs.
- Parcels.Parcel.Ensure: size_t overflow and a failing realloc.
- JsonGrammar.KeyLookup: strings with quotes or backslashes in them.
- `json_find_data`, `json_build` and the other response writers, which use the same lookups.
- NVRAM is never given back by delete and starts afresh on reload.
- ProfileFiles.PlainInside: symbolic links, a full disk and permissions that change while running; which directories exist and which paths can be written is fixed for a run.
- ProfileStore.VirtualEuicc.DeleteProfile: unlinking a path that cannot be written is taken as a missing file.
- Isdp.ProfileRoundTrip: dictionaries whose ICCID is not text, whose SQN is not a number, or that hold lists or objects.
