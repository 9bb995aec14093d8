# Link, signalling and coding protocols of the radio-linked PBX

Dafny models of the parts of this repository whose correctness no finite set of
cases settles, each with proofs about every input, every run or every reachable
state.

* **Q.921 link layer** (`q921_*.dfy`): the LAPD endpoint of `astsrc/libpri/q921.c`.
  `q921_link` gives every handler as a function on values, `q921_endpoint` is the
  class that updates `struct pri` in place and is proved against these functions,
  `q921_numbering`, `q921_step`, `q921_runs`, `q921_air` and `q921_window` hold for
  one endpoint with an arbitrary peer, `q921_system` joins two endpoints by lossy FIFO
  channels, and `q921_giveup` is about what happens when one of them gives up.
* **Bit reversal** (`fft_*.dfy`): `makeipt`, `bitrv2` and `bitrv2conj` of
  `astsrc/uridiag/fftsg.c`, in place, for every transform length they serve.
* **MDC-1200** (`mdc_*.dfy`, `bit_rows.dfy`): checksum, convolutional parity,
  interleaver, sync detection and multi-branch decoder of
  `astsrc/asterisk/allstar/mdc_encode.c` and `mdc_decode.c`. Machine words are rows
  of bits, least significant first, of their exact width. MDC_GDTHRESH is a
  parameter.
* **POCSAG** (`pocsag_*.dfy`): codewords, packing and batches of
  `astsrc/asterisk/allstar/pocsag.c` (Recommendation ITU-R M.584-2, Annex 1), and a
  receiver to read them back with.
* **Q.931** (`q931_*.dfy`): information elements and codeset shifts, call
  references and the call pool, call clearing with T305 and T308, and the queue of
  facility components, from `astsrc/libpri/q931.c`.
* **ROSE** (`rose_*.dfy`): the component builder and the DivertingLegInformation2
  encoder and decoders of `astsrc/libpri/pri_facility.c` and `pri_facility.h`.

Where a source procedure updates state, a class or a method over an array does the
same, and its contract equates the new state with a function of the old one; the
theorems are about these functions.

Some promises turned out not to hold as the source stands; each is kept as it is and
the exact condition proved:

* The window K of Q.921 can be exceeded, because T200 sends a head that was never
  sent without counting it, at once beyond a full window (`WindowOverrunByT200`), and
  because such a head is discounted when acknowledged, for good (`WindowOverrun`).
  `StepOverrunsIff` has the guards under which an event does so, `WindowKeptIff` the
  same for whole runs, and `WindowAccount` sums the miscounts since the last reset.
  Frames carry a history mark, `aired`, for having been on the wire at all, which the
  source does not keep and nothing in the model decides by; `AiredExactly` ties it to
  the wire.
* Layer 3 can queue frames while the link is down, and the source sends them, numbered
  from 0 again; when SABME is lost the other end may take one for the next frame
  (`StrayTaken`). `InOrderDelivery` has the event that does it, and
  `SurvivorInOrderIff` the states from which it can come to that.
* V(S) is never reduced, so from 128 frames on the window test accepts every number,
  legal or not (`WindowTestIff`, `StrayNumber`, `StrayReached`).
* Eight POCSAG addresses with tone 0 produce the IDLE codeword and cannot be paged
  (`AddressIsIdleIff`); a text ends for the receiver at its first character 4.
* An MDC threshold of 18 or more (the source uses 5) syncs inside the sync word
  (`HearsSyncWordIff`), although polarity invariance needs only a threshold below 20.
* A facility component of 236 to 255 octets is accepted into the queue, is never
  sent, and blocks all later ones for its message type (`WaitsIffBlocked`).
* Hanging up an unanswered incoming call with an ordinary cause sends nothing and
  starts no timer (`UnansweredHangupIsSilent`, `HangupClearsIff`).
* A second codeset-0 element behind a locking shift is read in the locked codeset
  (`MessageRoundTripIff`); a locking shift back to codeset 0 is not obeyed.
* The sizes that the nested ROSE decoders return do not always add up:
  presentationRestrictedNumber claims two octets too many, a refused inner address is
  taken for a size, and the type of number is counted as one octet
  (`PresentedSizeIff`, `NestedSizeIff`, `TwoMisreadings`).
* A NUMERIC POCSAG page shows spaces for characters outside its sixteen
  (`NumberPageIff`).
* A redirecting number of more than 191 digits cannot be encoded although only 20
  digits are sent (`Encode`).

## Model

| member | source | states |
|---|---|---|
| Q921System.InOrderDelivery | astsrc/libpri/q921.c:455-582 | over every run of two endpoints with FIFO channels that lose frames (fewer than 128 queued at each), until SABME reaches an end: what layer 3 has received on either side is a prefix of what the other side has queued, in every state of the run, if and only if no event of it is the acceptance, by its number, of an I-frame that a peer which has given the link up has sent since, its SABME having been lost, and that is not the next payload |
| Q921System.InOrderWhileUp | astsrc/libpri/q921.c:455-582 | in every reachable state in which both ends hold the link that prefix property holds: nothing lost, repeated or reordered, despite mod-128 numbers, REJ and T200 resends and overtaking first sends |
| Q921GiveUp.SurvivorInOrderIff | astsrc/libpri/q921.c:384-453 | at the moment T200 makes one end give up: the prefix property holds in every continuation, whatever is queued, lost and retried, if and only if V(R) of the other end, counted on by the frames still on their way to it, cannot be a number that the first can send when it counts from 0 again (below K, or 0 alone if K is 0 and T200 resends) |
| Q921GiveUp.StrayTaken | astsrc/libpri/q921.c:455-523 | with N200 = 1, six events after which one side holds e although the other queued d and then e: layer 3 goes on queueing while SABME is unanswered, and SABME is lost |
| Q921System.RunSafe | astsrc/libpri/q921.c:886-993 | the inductive invariant behind it holds in every reachable state, with one end or both having given up and sending: true numbers of every frame and acknowledgement in flight between living ends, numbers from 0 on for all that is sent afterwards |
| Q921System.OnlyTimeoutEndsLink | astsrc/libpri/q921.c:279-300 | between two such endpoints no acknowledgement is ever taken for one outside the window: only a T200 expiry can end the link |
| Q921System.NextOrNot | astsrc/libpri/q921.c:544-582 | the 7-bit N(S) of the front I-frame equals V(R) exactly if it carries the very next undelivered payload |
| Q921System.ArriveNext | astsrc/libpri/q921.c:544-582 | accepting the next I-frame delivers its payload and keeps both directions sound, whatever layer 3 queues in reply |
| Q921System.ArriveOther | astsrc/libpri/q921.c:886-993 | any other frame delivers nothing, keeps both directions sound and never restarts the link |
| Q921System.LoseForward | astsrc/libpri/q921.c:544-582 | losing any I-frame in flight keeps the direction that carries payloads sound |
| Q921System.LoseBackward | astsrc/libpri/q921.c:279-325 | losing any acknowledgement in flight keeps that direction sound |
| Q921Numbering.AckTakesPrefix | astsrc/libpri/q921.c:279-325 | for any 7-bit N(R), legal or not, q921_ack_rx restarts the link or removes exactly a prefix of the queue, of a stated length, and the rest stays consecutively numbered |
| Q921Numbering.AckHead | astsrc/libpri/q921.c:220-262 | acknowledging the head removes just that frame; a waiting frame may be sent meanwhile, no other content changes |
| Q921Numbering.ReceiveKeepsNumbering | astsrc/libpri/q921.c:886-993 | after any I or S frame with any N(S), N(R) the queued N(S) are consecutive mod 128, end at V(S)-1, and begin at V(A) or V(A)+1 |
| Q921Numbering.OwnStepsKeepNumbering | astsrc/libpri/q921.c:384-542 | so after T200, T203 and q921_transmit_iframe |
| Q921Numbering.WindowTestIff | astsrc/libpri/q921.c:279-300 | the window test passes exactly the numbers of sent frames and the next one, for all numbers, if and only if V(S) is below 128 or so many frames wait that every number is legal |
| Q921Numbering.StrayNumber | astsrc/libpri/q921.c:279-300 | otherwise a number just behind the window passes it and takes the whole queue off |
| Q921Runs.AlwaysNumbered | astsrc/libpri/q921.c:455-523 | the numbering holds in every state of every run of an endpoint with an arbitrary peer, as long as fewer than 128 frames stay queued |
| Q921Runs.StrayReached | astsrc/libpri/q921.c:279-300 | a run that gets there: after 128 frames queued and acknowledged one by one, number 126 takes off frame 0, which is still to be acknowledged |
| Q921Step.AckRxSound | astsrc/libpri/q921.c:279-325 | a legal acknowledgement passes the window test, takes nothing off the queue that it does not cover, and delivers and renumbers nothing |
| Q921Step.AcceptSound | astsrc/libpri/q921.c:544-582 | an in-sequence I-frame is delivered once and in place, V(R) advances by one, and the replies of layer 3 extend the history |
| Q921Step.RefuseSound | astsrc/libpri/q921.c:573-580 | an I-frame out of sequence delivers nothing and acknowledges nothing |
| Q921Step.RejectSound | astsrc/libpri/q921.c:946-988 | REJ resends only queued frames; with an empty queue the numbers it resets V(A) and V(S) to are the right ones |
| Q921Step.ResendSound | astsrc/libpri/q921.c:954-965 | every frame the resend loop sends carries the payload of its true number |
| Q921Step.T200Sound | astsrc/libpri/q921.c:384-453 | a T200 expiry that does not give up keeps queue, history and deliveries |
| Q921Runs.AlwaysQuiet | astsrc/libpri/q921.c:384-582 | between events of any run: V(R) has been acknowledged, a non-empty queue has T200 set, 0 <= retrans < N200, windowlen <= window = K |
| Q921Window.WindowAccount | astsrc/libpri/q921.c:220-262 | over every run since the last reset: flagged queued frames minus windowlen is the number of never-flagged heads acknowledged; frames really sent and unacknowledged are windowlen plus the number of times a head went out uncounted or was acknowledged unsent |
| Q921Window.StepOutstanding | astsrc/libpri/q921.c:384-523 | how many frames are sent and unacknowledged after any event, from guards that can be read off the state before it |
| Q921Window.StepOverrunsIff | astsrc/libpri/q921.c:404-410 | for every state with at most K frames sent and unacknowledged and every event: the event leads to more than K exactly if it is a T200 expiry that sends a head never sent before with the window full, a send let through by an earlier miscount, or an acknowledgement of a never-sent head that lets out more than it takes |
| Q921Window.WindowKeptIff | astsrc/libpri/q921.c:220-262 | a whole run keeps to the window K if and only if no event of it meets these guards |
| Q921Air.AiredExactly | astsrc/libpri/q921.c:384-413 | over every run, from the last reset on: each I-frame sent shows a payload that layer 3 has queued since, with its number, and that payload has left the queue or its frame is marked as sent; each frame in the queue that is marked has been sent; so the count is of exactly the frames the peer may have |
| Q921Window.WindowRespectedIff | astsrc/libpri/q921.c:493-498 | an idle link keeps to K in every continuation, with any peer, in which T200 finds no unsent head and no unsent frame is acknowledged, if and only if no miscount is left from before or K is at least 127 |
| Q921Window.WindowOverrunByT200 | astsrc/libpri/q921.c:404-410 | with K = 1 a five-event run after which two frames are sent and unacknowledged although no unflagged head was ever acknowledged |
| Q921Window.WindowOverrun | astsrc/libpri/q921.c:404-410 | a five-event run after which the idle link counts one frame too few for good |
| Q921Runs.RejectsAreSeparated | astsrc/libpri/q921.c:573-580 | over any run of an established endpoint the Rejects sent exceed the accepted I-frames by at most one, and by none while one is outstanding |
| Q921Endpoint.Endpoint.AckPacket | astsrc/libpri/q921.c:220-262 | the in-place removal from txqueue, with the search for a frame the opened window lets out, equals the specification function |
| Q921Endpoint.Endpoint.AckRx | astsrc/libpri/q921.c:279-325 | the window loop equals its closed form (V(S) unreduced: from 128 on every number passes) and the acknowledgement loop the specification; the result tells whether the link was restarted |
| Q921Endpoint.Endpoint.Queue | astsrc/libpri/q921.c:455-523 | q921_transmit_iframe: append, send or hold back, timers |
| Q921Endpoint.Endpoint.HandleIframe | astsrc/libpri/q921.c:544-582 | q921_handle_iframe with the replies of layer 3 |
| Q921Endpoint.Endpoint.Resend | astsrc/libpri/q921.c:954-965 | the resend loop: which frames go out again and which N(R) they carry |
| Q921Endpoint.Endpoint.HandleREJ | astsrc/libpri/q921.c:946-988 | the REJ case with both outcomes of an unanswered request |
| Q921Endpoint.Endpoint.HandleRR | astsrc/libpri/q921.c:916-935 | the RR case |
| Q921Endpoint.Endpoint.HandleRNR | astsrc/libpri/q921.c:936-945 | the RNR case |
| Q921Endpoint.Endpoint.Receive | astsrc/libpri/q921.c:886-993 | dispatch of I and S frames in the Established state |
| Q921Endpoint.Endpoint.T200Expire | astsrc/libpri/q921.c:384-453 | retransmission or poll, retry count, giving up |
| Q921Endpoint.Endpoint.T203Expire | astsrc/libpri/q921.c:525-542 | the idle poll |
| Q921Endpoint.Endpoint.Reset | astsrc/libpri/q921.c:760-789 | every variable back to its initial value and the queue emptied |
| Q921Endpoint.Endpoint.Up | astsrc/libpri/q921.c:717-745 | the state after q921_dchannel_up |
| FftBitrev.Bitrv2 | astsrc/uridiag/fftsg.c:896-1595 | bitrv2 and bitrv2conj for every n = 16 m^2 or 32 m^2, m = 2^t, t >= 1: complex element x becomes the old element at its full bit-reversed index (conjugated in bitrv2conj), and nothing behind the n reals changes |
| FftBitrev.MakeIpt | astsrc/uridiag/fftsg.c:704-721 | at every level t it builds, ip[m + k] = 8 m rev_t(k) for m = 2^t and all k < m |
| FftBitrev.AddLevel | astsrc/uridiag/fftsg.c:712-718 | one level of the table from the one before it |
| FftBitrev.LevelsEnough | astsrc/uridiag/fftsg.c:704-721 | the table made for n reals (nw = n/4) contains the level bitrv2 reads |
| FftBitrev.TwiceIsIdentity | astsrc/uridiag/fftsg.c:896-1595 | a second pass of either routine restores the array |
| FftBitrev.PairOfRows4 | astsrc/uridiag/fftsg.c:909-1070 | the sixteen unrolled exchanges of rows j < k with two middle bits reach exactly the cells of that pair of rows |
| FftBitrev.SameRow4 | astsrc/uridiag/fftsg.c:1071-1131 | row k with itself: four exchanges of the middle bits and the ends, the untouched cells being fixed points |
| FftBitrev.PairOfRows2 | astsrc/uridiag/fftsg.c:1135-1216 | the eight exchanges of rows j < k with one middle bit |
| FftBitrev.RowBits | astsrc/uridiag/fftsg.c:901-904 | the search for m finds the row length and tells the two shapes apart |
| FftBits.RevBits | astsrc/uridiag/fftsg.c:704-721 | what the recursive reversal means: bit i of the result is bit t-1-i of the argument |
| FftBits.RevTwice | astsrc/uridiag/fftsg.c:896-1240 | reversal is an involution |
| FftBits.RevJoined | astsrc/uridiag/fftsg.c:896-1240 | reversing a concatenation of fields swaps and reverses the fields, the fact that lets a square-root-size table do |
| FftCells.MirrorCell | astsrc/uridiag/fftsg.c:896-1240 | in terms of low bit, column, middle bits, row, high bit: the mirror of a cell |
| FftSwaps.ExchangeArranged | astsrc/uridiag/fftsg.c:910-919 | an exchange of an element with its mirror arranges just these two |
| FftSwaps.FreshSpot | astsrc/uridiag/fftsg.c:907-1240 | neither end of an exchange has been moved before: all exchanged pairs are disjoint |
| MdcRoundTrip.PacketRoundTrip | astsrc/asterisk/allstar/mdc_encode.c:249-277 | for every op other than 0x35 and 0x55, arg and unitID: a branch whose initial window does not match during the preamble, in either polarity and with any threshold up to 17, reports exactly these fields with good = 1 |
| MdcRoundTrip.DoubleRoundTrip | astsrc/asterisk/allstar/mdc_encode.c:279-317 | for ops 0x35 and 0x55: the same with good = 2 and the four extra octets, good being 0 after the first block |
| MdcBranches.PacketHeardByAll | astsrc/asterisk/allstar/mdc_decode.c:269-300 | any number of such branches given the same symbols, each symbol in an order of the branches of its own, sharing good and the fields: after 208 rounds good = 1 and the fields are those sent, although the first branch to finish sends the others back to hunting |
| MdcBranches.DoubleHeardByAll | astsrc/asterisk/allstar/mdc_decode.c:155-206 | for ops 0x35 and 0x55, and again any orders: good = 0 after 208 rounds, good = 2 with fields and extras after 320 |
| MdcRoundTrip.HuntsThroughIff | astsrc/asterisk/allstar/mdc_decode.c:220-253 | a branch hunts through the first 56 symbols if and only if none of the windows made of its initial 40 bits and the preamble comes within the threshold of the sync word or of its complement |
| MdcRoundTrip.AlternatingIsQuiet | astsrc/asterisk/allstar/mdc_decode.c:220-253 | a branch that already hears the alternation is such a branch, for every threshold up to 17 |
| MdcRoundTrip.SyncsAtEnd | astsrc/asterisk/allstar/mdc_decode.c:220-253 | whatever the polarity, the branch syncs on the last bit of the sync word and hears the bits as sent from there on |
| MdcRoundTrip.HearsSyncWordIff | astsrc/asterisk/allstar/mdc_decode.c:239-253 | a branch that hunts through the preamble hears the sync word out if and only if the threshold is at most 17 |
| MdcRoundTrip.NoEarlySync | astsrc/asterisk/allstar/mdc_decode.c:239-253 | it syncs nowhere inside the sync word |
| MdcSync.NoFalseSync | astsrc/asterisk/allstar/mdc_decode.c:236-253 | every window before the last is at least 18 bits from the sync word and from its complement |
| MdcSync.FalseSyncAtEighteen | astsrc/asterisk/allstar/mdc_decode.c:236-253 | that bound is attained, four bits into the sync word |
| MdcWindow.WindowSlides | astsrc/asterisk/allstar/mdc_decode.c:228-234 | the two register shifts slide a window of the last 40 bits |
| MdcWindow.DistanceIsDiff | astsrc/asterisk/allstar/mdc_decode.c:236-237 | the count of the two masked exclusive ors is the Hamming distance of the window from the sync word |
| MdcWindow.HuntIs | astsrc/asterisk/allstar/mdc_decode.c:227-254 | a hunting step in terms of that distance |
| MdcCode.InterleaveRoundTrip | astsrc/asterisk/allstar/mdc_decode.c:127-135 | the 7 by 16 deinterleaver undoes the interleaver |
| MdcEncode.EncStr | astsrc/asterisk/allstar/mdc_encode.c:178-247 | the fourteen octets rewritten in place are the block (checksum, convolutional parity, interleaving, most significant bit first) of the four octets that were there; all other octets stay |
| MdcEncode.AddParity | astsrc/asterisk/allstar/mdc_encode.c:195-209 | the seven-tap shift register computes the parity bits n, n-2, n-5, n-6 |
| MdcEncode.Interleave | astsrc/asterisk/allstar/mdc_encode.c:219-243 | the interleaver with its stepping index, as a permutation |
| MdcEncode.Encoder.SetPacket | astsrc/asterisk/allstar/mdc_encode.c:249-277 | the buffer holds leader and block, or is refused unchanged while a packet is loaded |
| MdcEncode.Encoder.SetDoublePacket | astsrc/asterisk/allstar/mdc_encode.c:279-317 | leader and both blocks |
| MdcEncode.Encoder.Transmit | astsrc/asterisk/allstar/mdc_encode.c:319-350 | the symbols of a whole transmission are the change/no-change coding of the octets sent from the most significant bit |
| MdcEncode.Encoder.Next | astsrc/asterisk/allstar/mdc_encode.c:327-350 | one symbol on, or the end after the octet behind the packet |
| MdcCrc.DoCrc | astsrc/asterisk/allstar/mdc_decode.c:87-115 | the loop over a message of any length, in words of any width from 16 up, gives the 16-bit register, reversed and complemented, and zeros above |
| MdcCrc.Flip | astsrc/asterisk/allstar/mdc_decode.c:74-85 | the two walking masks reverse the low bitnum bits and clear the rest |
| MdcCrc.WideRegister | astsrc/asterisk/allstar/mdc_encode.c:128-155 | bits above 15 of the unmasked register never matter |
| MdcDetect.Remainder | astsrc/asterisk/allstar/mdc_decode.c:87-115 | the register is the remainder of the message times x^16 by x^16+x^12+x^5+1: a quotient exists |
| MdcDetect.RemainderUnique | astsrc/asterisk/allstar/mdc_decode.c:87-115 | any quotient and 16-bit remainder of the same message have the register as remainder |
| MdcDetect.Linear | astsrc/asterisk/allstar/mdc_decode.c:87-115 | the register is linear in its start value and the message |
| MdcDetect.AcceptsIff | astsrc/asterisk/allstar/mdc_decode.c:150-153 | a block is accepted exactly if all 48 protected bits bring the register to one fixed residue |
| MdcDetect.ErrorUnnoticedIff | astsrc/asterisk/allstar/mdc_decode.c:150-153 | an error pattern on 48 accepted bits goes unnoticed exactly if the pattern itself is the polynomial times some quotient |
| MdcDetect.BurstDetected | astsrc/asterisk/allstar/mdc_decode.c:150-153 | every burst of at most 16 of the 48 bits is rejected |
| MdcDetect.OddErrorDetected | astsrc/asterisk/allstar/mdc_decode.c:150-153 | every error of odd weight is rejected |
| MdcDetect.EmptiesIff | astsrc/asterisk/allstar/mdc_decode.c:87-115 | 48 bits bring an empty register back to empty exactly if they are a multiple of the polynomial |
| MdcIntegrity.IntactIff | astsrc/asterisk/allstar/mdc_decode.c:118-153 | the test of _procbits on the 112 captured bits is that acceptance of its 48 protected bits |
| MdcIntegrity.AirErrorUnnoticedIff | astsrc/asterisk/allstar/mdc_decode.c:118-153 | errors in the captured bits of a good block go unnoticed exactly if what they leave on the protected bits is a multiple of the polynomial |
| MdcIntegrity.NoticedErrors | astsrc/asterisk/allstar/mdc_decode.c:118-153 | a good block with errors that leave a burst of at most 16, or an odd number, of the 48 protected bits fails the test |
| MdcIntegrity.BadBlockStoresNothing | astsrc/asterisk/allstar/mdc_decode.c:150-206 | _procbits on such a block stores nothing: the branch goes back to hunting and all else stays |
| MdcRuns.EveryPacketWasHeard | astsrc/asterisk/allstar/mdc_decode.c:118-206 | over every run of a new decoder with any number of branches: shcount < 112 while capturing, at most one branch waits for a second block, good = 1 fields come from one block and good = 2 fields and extras from two consecutive blocks of one branch |
| MdcRuns.ActKeeps | astsrc/asterisk/allstar/mdc_decode.c:220-284 | every symbol at every branch and every read keeps what is stored attributed to what was heard |
| MdcPolarity.PolarityInvariance | astsrc/asterisk/allstar/mdc_decode.c:209-284 | two decoders that differ in the polarity of a branch sync on the same symbol and agree on every captured bit and on the outcome of the block |
| MdcPolarity.SyncTogether | astsrc/asterisk/allstar/mdc_decode.c:239-253 | distance d on one is 40 - d on the other: with a threshold below 20 both sync or neither, and exactly one turns its polarity |
| MdcPolarity.TooLooseToAgree | astsrc/asterisk/allstar/mdc_decode.c:239-253 | from 20 on that fails: at distance 20 both sync directly and go on disagreeing |
| MdcDecoder.OneBits | astsrc/asterisk/allstar/mdc_decode.c:209-218 | clearing the lowest set bit until none is left counts the ones |
| MdcDecoder.Deinterleave | astsrc/asterisk/allstar/mdc_decode.c:127-135 | the nested loops compute the deinterleaved block |
| MdcDecoder.ReadBlock | astsrc/asterisk/allstar/mdc_decode.c:118-153 | the octets of a captured block and the verdict of its checksum |
| MdcDecoder.Decoder.ProcBits | astsrc/asterisk/allstar/mdc_decode.c:118-206 | _procbits on all branches and stored fields |
| MdcDecoder.Decoder.ShiftInBit | astsrc/asterisk/allstar/mdc_decode.c:220-267 | _shiftin |
| MdcDecoder.Decoder.ZcProc | astsrc/asterisk/allstar/mdc_decode.c:269-284 | _zcproc, keeping room in every capture |
| MdcDecoder.Decoder.GetPacket | astsrc/asterisk/allstar/mdc_decode.c:368-391 | the stored fields exactly if good is 1, and good cleared |
| MdcDecoder.Decoder.GetDoublePacket | astsrc/asterisk/allstar/mdc_decode.c:393-429 | the same for good 2 with the extras |
| PocsagPage.PageRoundTripIff | astsrc/asterisk/allstar/pocsag.c:128-207 | for every address below 2^21, tone and text: reading the slots back gives address, tone and text if and only if the address codeword is not one of the eight that read as IDLE and no character is the end of transmission |
| PocsagPage.AddressIsIdleIff | astsrc/asterisk/allstar/pocsag.c:150-172 | the address codeword equals IDLE exactly for addresses 2007664 to 2007671 with tone 0 |
| PocsagPage.TextRoundTrip | astsrc/asterisk/allstar/pocsag.c:79-120 | any text reads back up to its first end-of-transmission character |
| PocsagPage.ReadPage | astsrc/asterisk/allstar/pocsag.c:128-207 | a receiver finds address, tone and message codewords in the slots of any page |
| PocsagNumber.NumberRoundTrip | astsrc/asterisk/allstar/pocsag.c:59-78 | the digits read back from the codewords of any NUMERIC page: each character if it is in nstr, else a space, and spaces up to a full codeword |
| PocsagNumber.ShownIff | astsrc/asterisk/allstar/pocsag.c:63-67 | that is the string itself, up to the spaces behind it, exactly if all its characters are in nstr |
| PocsagNumber.NumberPageIff | astsrc/asterisk/allstar/pocsag.c:128-207 | reading the slots back gives address, tone and string if and only if the address codeword does not read as IDLE and all characters are in nstr |
| PocsagPage.NumberCodewords | astsrc/asterisk/allstar/pocsag.c:59-78 | the codewords of a NUMERIC page do not depend on what packed held before, and carry its digits |
| PocsagPage.IdleIsCodeword | astsrc/asterisk/allstar/pocsag.c:31-47 | IDLE is itself a valid codeword |
| PocsagCode.ValidIff | astsrc/asterisk/allstar/pocsag.c:31-47 | of all words with the given 21 message bits, do_parity_stuff computes the only one that is a multiple of the generator with even parity |
| PocsagCode.CodewordValid | astsrc/asterisk/allstar/pocsag.c:31-47 | every codeword is a multiple of x^10+x^9+x^8+x^6+x^5+x^3+1 and has even parity |
| PocsagCode.DivideIs | astsrc/asterisk/allstar/pocsag.c:36-39 | n turns of the shift loop divide by the generator, with an explicit quotient |
| PocsagCode.DoParityStuff | astsrc/asterisk/allstar/pocsag.c:31-47 | both loops together compute the codeword |
| PocsagPack.PackAlpha | astsrc/asterisk/allstar/pocsag.c:79-120 | ALPHA packing of L characters gives floor(7(L+1)/20)+1 words, equal bit for bit to text, end of transmission, and repeated end of transmission |
| PocsagPack.PackNumeric | astsrc/asterisk/allstar/pocsag.c:59-78 | the low 20 bits of every word are five digits, whatever packed held before |
| PocsagPack.FindDigit | astsrc/asterisk/allstar/pocsag.c:63-67 | the search in nstr, with spaces for anything else |
| PocsagBatch.MakeBatch | astsrc/asterisk/allstar/pocsag.c:128-207 | the linked batches hold exactly the page: address codeword in its frame, message word i at linear slot 2(ric mod 8)+1+i, every other slot IDLE; null exactly for tones outside 0..3 |
| PocsagBatch.Place | astsrc/asterisk/allstar/pocsag.c:179-203 | the body of the inner loop with its jump to a new batch puts word n into slot n |
| PocsagBatch.Pack | astsrc/asterisk/allstar/pocsag.c:50-125 | pack_pogsag_string for the three kinds of page |
| Q931Ies.MessageRoundTripIff | astsrc/libpri/q931.c:3402-3468 | a message reads back as the same list of codeset, identifier and contents if and only if each codeset-0 element after a locking shift comes alone and the switch type does not ignore non-locking shifts |
| Q931Ies.ReadMessage | astsrc/libpri/q931.c:3402-3468 | every message that add_ie writes is read to its end, element by element; what is taken of each group is stated for all cases |
| Q931Ies.TakenIff | astsrc/libpri/q931.c:3402-3468 | exactly when nothing of it is dropped or moved to another codeset |
| Q931Message.AddIe | astsrc/libpri/q931.c:2438-2492 | what is written for an element: shift octet, all its occurrences up to max_count, or an error; the octets before it stay |
| Q931Message.AddContents | astsrc/libpri/q931.c:2458-2477 | the do-while loop over the transmit routine |
| Q931Message.SendMessage | astsrc/libpri/q931.c:2618-2652 | header and elements in order, or nothing if an element fails |
| Q931Message.InitHeader | astsrc/libpri/q931.c:2563-2602 | discriminator, reference in its one- or two-octet form, message type |
| Q931Message.CrRoundTrip | astsrc/libpri/q931.c:2265-2291 | a reference decodes on the other side as the same value with the flag bit inverted, in both forms |
| Q931Message.CrReturns | astsrc/libpri/q931.c:2265-2291 | sent back from there it names the original call |
| Q931Message.ReceiveIes | astsrc/libpri/q931.c:3402-3468 | the receive loop equals the recursive reader, including its stop on an overlong element |
| Q931Message.Receive | astsrc/libpri/q931.c:3227-3470 | maintenance answer, discriminator test, reference, elements |
| Q931Message.ServiceAcknowledged | astsrc/libpri/q931.c:3248-3256 | under discriminators 0x03 and 0x43 a message comes straight back with 8 taken from its type, so SERVICE is answered by SERVICE ACKNOWLEDGE, and everything else is as it was |
| Q931Message.SentIsReceived | astsrc/libpri/q931.c:2618-2652 | from send_message to q931_receive: inverted reference, type and all elements, if and only if the message is clean and its discriminator is not one of the two maintenance ones |
| Q931Pool.Pool.GetCall | astsrc/libpri/q931.c:2328-2370 | returns the call with the reference, appending a new one if there is none; the list stays acyclic with distinct references |
| Q931Pool.Pool.NewCall | astsrc/libpri/q931.c:2372-2394 | ends whenever a reference is free, with the first free one in cyclic order after cref |
| Q931Pool.Pool.Destroy | astsrc/libpri/q931.c:2396-2423 | removes one matching call and keeps the others and their order; reports whether there was one |
| Q931Pool.FreeReference | astsrc/libpri/q931.c:2372-2394 | with fewer calls than the 32767 (BRI 127) references one is free |
| Q931Pool.RefReached | astsrc/libpri/q931.c:2378-2385 | going round with wrap to 1 meets every reference |
| Q931Clearing.ClearingFinishes | astsrc/libpri/q931.c:2844-2888 | with a silent peer and any requests of the user in between, a call being cleared stays in the pool exactly until its last expiry; RELEASE is sent at each earlier one and nothing else |
| Q931Clearing.DisconnectClears | astsrc/libpri/q931.c:2971-2987 | after DISCONNECT has been sent: three expiries, RELEASE twice, and the call is gone |
| Q931Clearing.HangupClearsIff | astsrc/libpri/q931.c:3134-3225 | exactly when a hangup removes the call or starts its clearing |
| Q931Clearing.UnansweredHangupIsSilent | astsrc/libpri/q931.c:3134-3225 | an incoming call not yet answered is not alive, so hanging it up sends nothing, starts no timer and leaves it in the pool |
| Q931Clearing.HangupSendsOne | astsrc/libpri/q931.c:3134-3225 | at most one message per hangup; a call leaves the pool only at rest or with RELEASE COMPLETE |
| Q931Clearing.AskingChangesNothing | astsrc/libpri/q931.c:3134-3225 | hangup, disconnect and release during clearing send nothing and delay nothing |
| Q931Control.CallControl.Hangup | astsrc/libpri/q931.c:3134-3225 | q931_hangup in place; its recursion through q931_release_complete ends |
| Q931Control.CallControl.Release | astsrc/libpri/q931.c:2923-2945 | q931_release with the choice of timer |
| Q931Control.CallControl.Disconnect | astsrc/libpri/q931.c:2971-2987 | q931_disconnect |
| Q931Control.CallControl.Expire | astsrc/libpri/q931.c:2833-2888 | the four timeout routines |
| Q931Apdus.SentOnceInOrder | astsrc/libpri/q931.c:1296-1319 | over every run each component is sent at most once, per message type in queue order, and the sent ones are always a beginning of the queue of that type |
| Q931Apdus.WaitsIffBlocked | astsrc/libpri/q931.c:1307-1310 | a component still waits after a message of its type exactly if it or one queued before it for that type is longer than 235 octets |
| Q931Apdus.DrainIs | astsrc/libpri/q931.c:2458-2477 | what one message sends, from any orderly queue |
| Q931Apdus.UnsentFalls | astsrc/libpri/q931.c:1296-1319 | every turn of the loop of add_ie leaves one unsent component less, so it ends without a count limit |
| Q931Facility.ApduQueue.Queue | astsrc/libpri/pri_facility.c:2344-2373 | append to the linked queue, or refusal of an empty or overlong component or message type 0 |
| Q931Facility.ApduQueue.Transmit | astsrc/libpri/q931.c:1296-1319 | the first unsent component of the type is written and marked, unless it is overlong |
| Q931Facility.ApduQueue.TransmitAll | astsrc/libpri/q931.c:2458-2477 | the loop of add_ie over it ends and writes exactly what the specification says |
| Q931Facility.TransmitProgress | astsrc/libpri/q931.c:1432-1470 | the lowest described bit of the progress mask is sent and cleared |
| Q931Facility.TransmitAllProgress | astsrc/libpri/q931.c:1432-1470 | the loop of add_ie over it ends; every described bit goes out once, in increasing order |
| RoseRoundTrip.DiversionRoundTrip | astsrc/libpri/q931.c:1321-1430 | for every redirecting number, presentation, type and reason: receive_facility, rose_invoke_decode and the nested decoders consume the encoded element to its last octet and leave the stated call fields |
| RoseRoundTrip.NumberComesBack | astsrc/libpri/pri_facility.c:626-752 | with presentation allowed the number comes back if and only if it has at most 20 digits, and the reason if and only if the switch type can carry it |
| RoseRoundTrip.PresentedRead | astsrc/libpri/pri_facility.c:576-624 | the number, type and presentation read back from what the encoder writes, and the size |
| RoseRoundTrip.RestrictedNumberOvershoots | astsrc/libpri/pri_facility.c:611-615 | presentationRestrictedNumber with a type of one octet: the returned size is two octets too large, although the number is read rightly |
| RoseSizes.PresentedSizeIff | astsrc/libpri/pri_facility.c:410-624 | for every component of definite length the decoder returns its octets exactly if a condition on its octets holds: which kinds are met, which inner components fill theirs, whether the inner address is accepted, how long the type of number is |
| RoseSizes.NestedSizeIff | astsrc/libpri/pri_facility.c:576-624 | for well-nested components in closed form: the two empty kinds always; an allowed number if the address is accepted and the type of number, if there is one, has one octet; a restricted number only with a type of three octets |
| RoseSizes.TwoMisreadings | astsrc/libpri/pri_facility.c:594-597 | two well-nested components read too short: a refused inner address gives 1 for four octets, a type of two octets gives 10 for eleven |
| RoseSizes.EncodedAddsUp | astsrc/libpri/pri_facility.c:793-880 | what the encoder writes meets the condition for every presentation, type and number |
| RoseSizes.EncodedSize | astsrc/libpri/pri_facility.c:576-624 | so its size is returned exactly |
| RoseRoundTrip.ShortForm | astsrc/libpri/pri_facility.c:754-891 | every length octet stays below 128 (X.690 section 8.1.3.4) |
| RoseWire.ReasonRoundTripIff | astsrc/libpri/pri_facility.c:228-308 | a reason survives both mappings exactly if the switch type can carry it, and becomes "unknown" otherwise |
| RoseBuilder.CloseIs | astsrc/libpri/pri_facility.h:272-276 | completing a component changes its length octet and nothing else, and leaves the places of the open ones |
| RoseBuilder.Builder.Push | astsrc/libpri/pri_facility.h:235-270 | opening a component |
| RoseBuilder.Builder.Fixup | astsrc/libpri/pri_facility.h:272-276 | back-patching through the stack gives properly nested components |
| RoseBuilder.Builder.AddString | astsrc/libpri/pri_facility.c:372-388 | a string component of at most max_len octets, refused when the whole string would not fit |
| RoseDiverting.Encode | astsrc/libpri/pri_facility.c:754-891 | the APDU built in place is the DivertingLegInformation2 invoke of these arguments, and the encoding succeeds if and only if an allowed number has at most 191 digits |
| RoseDiverting.PutNumber | astsrc/libpri/pri_facility.c:793-880 | either of its two numbers, in the form the presentation asks for |
| RoseDecoder.DecodeParts | astsrc/libpri/pri_facility.c:671-730 | the cursor loop over the optional parts equals the recursive reader |
| RoseDecoder.WalkComponents | astsrc/libpri/q931.c:1381-1426 | the loop of receive_facility over the components |
| RoseDecoder.Receive | astsrc/libpri/q931.c:1321-1430 | receive_facility with its refusals |
| RoseDecoder.GetInteger | astsrc/libpri/pri_facility.h:221-227 | ASN1_GET_INTEGER in 32 bits |

## Left out

Q.921:
- Q921System.InOrderDelivery: runs end at an end that SABME reaches, where the source answers UA and starts afresh; UA and what a new incarnation makes of frames of an old one are not modelled. Fewer than 128 frames are queued at each end
- Q921Endpoint.Endpoint.Receive: U frames, TEI management, BRI and GR-303 subchannels and the command/response bit are not modelled; one PRI link only
- Q921Endpoint.Endpoint.T200Expire: a timer is a handle that is set or not and may expire at any time; that t203_expire overwrites the handle just set is not captured, and the timer that repeats SABME is an event of Q921System alone
- Q921Link.Receive: what layer 3 queues while it handles a message is a parameter; failing writes are ignored as in the source
- V(S) beyond 2^31

Bit reversal:
- FftBitrev.Bitrv2: elements are reals, never rounded; the butterflies, the twiddle tables and the transforms for other lengths are left out

MDC-1200:
- MdcBranches.PacketHeardByAll: every branch has one turn per symbol, and all are hunting when the transmission begins; a branch that slips a symbol, and branches that a false sync keeps busy, are the subject of MdcRuns.EveryPacketWasHeard, which says nothing about which packets are reported
- MdcEncode.Encoder.Transmit: audio phase, sample tables and zero-crossing times are replaced by one change/no-change symbol per bit; the octet sent after the packet is arbitrary
- MdcDecoder.Decoder.constructor: the sync registers are parameters, because the source does not initialise them
- the channel-detect flags and sample loop of mdc_decoder_process_samples

POCSAG:
- PocsagPack.PackAlpha: texts of at most 284 characters, what the 100 words of packed hold; longer ones write behind the array in the source
- PocsagPack.PackNumeric: at most 500 digits for the same reason; the characters that the source reads behind the end of the string and discards are not read
- PocsagBatch.MakeBatch: frame[8][2] is a row of 16 slots; allocation succeeds; addresses from 2^21 up only as far as the layout goes

Q.931:
- Q931Message.SendMessage: a message whose elements fit the 1024 octets of the buffer, because the source does not stop transmit routines that need more
- Q931Message.Receive: mandatory-element checks, the STATUS sent for unknown message types, the contents of the elements and what is done with a message are not modelled; a frame shorter than its header is the caller's concern as in the source
- Q931Pool.Pool.NewCall: asks for a free reference, because the source loops for ever without one
- Q931Control.CallControl.Expire: a timer is a pending event of the call; scheduler slots, T309 and handles that outlive their event are not modelled
- q931_call_setcrv, which can make two calls share a reference
- channel identification, bearer capability and the other element routines
- suspend, resume, notify and GR-303 variants of hangup

ROSE:
- RoseRoundTrip.DiversionRoundTrip: the plan of the number comes back as its numbering plan alone, since the source does not combine it with the type of number again; names in the argument are not followed
- RoseWire.Address: indefinite lengths and reads behind the message give a separate outcome (Outside, Lost, Unknown) with nothing claimed about it; the length octet that the source writes back into the message is not modelled
- RoseDecoder.DecodeParts: names of the two parties and indefinite lengths end in Lost, with nothing claimed about what the source stores then
- RoseDecoder.WalkComponents: results, errors and rejects end in Unknown, with nothing claimed
- RoseDecoder.Receive: other invokes and indefinite lengths end in Unknown, with nothing claimed
- RoseSizes.PresentedSizeIff: components of definite length that are all there; an indefinite length at the outer level is Outside
- RoseDiverting.Encode: numbers of fewer than 256 octets, which is what the field of the call holds
- the other operations, results, errors and rejects

Elsewhere: input and output, logging and dump routines, allocation failure, the test drivers, the audio and USB code, and the Asterisk applications.
