# multiPMT control plane, modelled in Dafny

This project models the control plane of a multiPMT board, and proves properties of the model, in Dafny 4.11.
An operator drives two agents from the console (`DAQ/server/terminal_server.py`):
- **the HV agent** (`DAQ/client/hv_client.py` over `hv_conf.py`) configures high-voltage channels over Modbus;
- **the RC agent** (`DAQ/client/rc_client.py` over `rc_conf.py`) reads and writes the run-control registers in a memory-mapped window.

Each agent keeps a session with the console through a heartbeat:
- it sends `Ping` on a fixed interval;
- it polls for `Alive`;
- it confirms with `Connection successful`;
- it then serves JSON command envelopes until the console sends `back`.

Next to the control plane sit four smaller pieces:
- the DMA readout (`dma/ADC_parsing.py`), which turns 16-bit ADC words into hex rows and rows into event fields;
- the HV monitor client (`hvmon_client.py`), with its alarm and status texts and CSV keys;
- the HV monitor server (`hvmon_server.py`), with its output file name;
- the run-control monitor's register reader (`rc_exp.py`).

The modules follow the program:

| module | file | what it holds |
|---|---|---|
| `Text` | `text.dfy` | numerals in base 2, 10 and 16, zero filling, `int()` and `int(x, 0)`, `str.split`/`join`, `strip` |
| `Json` | `json.dfy` | decoded JSON values, `dict.get`, Python truthiness, `str()`, subscripts, `receive_json` |
| `RegisterBuffer` | `registers.dfy` | the byte window with little-endian 32-bit registers at `4*addr` |
| `RcConf` | `rc_conf.dfy` | `auto_int`, the bounds, `read`, `write`, `reset`, `init_boot`, `init_data`, `reg_monitoring`; the `RC` class over an `array<byte>` |
| `RcExp` | `rc_exp.dfy` | the monitor's read-only `RC` |
| `HvConf` | `hv_conf.dfy` | channel selectors, `process_channels`, `configure_channel`, `check_address`, `open`; the `HV` class with the Modbus writes as a log |
| `AgentSession` | `agent_session.dfy` | the agents' heartbeat and command loop as a state machine over events, with its invariant |
| `HvClient`, `RcClient` | `hv_client.dfy`, `rc_client.dfy` | `handle_commands` as a total function and as the method the loop calls; `client()` |
| `TerminalServer` | `terminal_server.dfy` | the console's handshake, envelopes and reply checks; the `ServerTerminal` class with its page state |
| `AdcParsing` | `adc_parsing.dfy` | the DMA writer's row framing and the parser's bit slicing |
| `HvmonClient`, `HvmonServer` | `hvmon_client.dfy`, `hvmon_server.dfy` | `alarmString`, `statusString`, `get_keys`, the config message, `generate_filename` |

Everything outside the process is a parameter of the model:
- a socket receive is a frame;
- a poll is an event that carries an arrival or none;
- the clock is the reading an event carries;
- the Modbus probe is a sequence of answers;
- `datetime.now()` is a `Moment`.

Python exceptions that escape are modelled as values (`Outcome`, `Crashed`).
This covers the `AttributeError` of `.get` on something that is not a dict, the `TypeError` of the single-parameter HV setters and the `ValueError` of `generate_filename`.

Three behaviours of the code that the model keeps as they are:
- **Single-parameter HV setters.** `set_voltage` and the other single-parameter setters pass the value positionally into `process_channels(**kwargs)`, which raises TypeError; `HvClient.SettersRaise` states the crash.
- **Console reply wait.** `do_read`, `do_write` and `do_power_on` block on the receive with no timeout, so the reply is a parameter of `ServerTerminal.Read`, `ServerTerminal.Write` and `ServerTerminal.PowerOn`.
- **Console sockets.** The console uses one control socket for both agents.

## Model

| member | source | states |
|---|---|---|
| Json.ReceiveJson | DAQ/client/hv_client.py:86-92 | a frame that is not JSON yields None; a JSON document other than null yields itself |
| Json.Lookup | DAQ/client/hv_client.py:104-110 | dict.get finds the last binding of the key, and None when no member has the key |
| Json.LookupLast | DAQ/client/hv_client.py:104-105 | a later binding of a key overrides every earlier one |
| Json.LookupOther | DAQ/client/hv_client.py:104-105 | binding another key leaves a lookup unchanged |
| Json.LookupAt | DAQ/client/hv_client.py:104-105 | a binding no later member overrides is the one dict.get finds |
| Json.Get | DAQ/client/hv_client.py:104 | .get succeeds exactly on a dict, giving its lookup; anything else raises AttributeError |
| Json.PyStrScalars | DAQ/client/rc_client.py:125 | str() of a string is the string, and str() of an int reads back with int() |
| Json.PyStr | DAQ/client/rc_client.py:125 | str() of a list is bracketed and str() of a dict braced; Json.PyStrScalars and Json.ListWithApostrophe give the string, integer and quoted-item cases |
| Json.Truthy | highvoltage/hv_server/hvmon_server.py:15-18 | no contract of its own; Json.Falsy carries its meaning |
| Json.Falsy | highvoltage/hv_server/hvmon_server.py:15-18 | the false values are exactly None, False, 0, the empty string, the empty list and the empty dict |
| Json.QuoteOf | DAQ/client/rc_client.py:125 | repr() of a string uses double quotes exactly when the text holds a single quote and no double quote, single quotes otherwise |
| Json.Escape | DAQ/client/rc_client.py:125 | a plain character is copied; the chosen quote is escaped with a backslash; a backslash and the control characters become backslash escapes |
| Json.StrRepr | DAQ/client/rc_client.py:125 | repr() of a string starts and ends with the quote it chose |
| Json.EscapedPlain | DAQ/client/rc_client.py:125 | text made of plain characters is copied unchanged inside the quotes |
| Json.EscapedApostrophes | DAQ/client/rc_client.py:125 | inside double quotes single quotes are copied unchanged |
| Json.StrReprQuotes | DAQ/client/rc_client.py:125 | plain text is shown between single quotes; plain text with single quotes and no double quote is shown unchanged between double quotes |
| Json.ApostropheRepr | DAQ/client/rc_client.py:125 | repr() of it's is "it's", between double quotes and unchanged |
| Json.ListWithApostrophe | DAQ/client/rc_client.py:125 | a list holding it's prints as ["it's"] |
| Json.IntArray | DAQ/client/rc_conf.py:136 | a list of ints becomes a JSON list of the same length with the same ints in the same places |
| Json.Subscript | DAQ/server/terminal_server.py:196 | indexing succeeds exactly on a list index in range (giving that item) or a string index in range (giving that character); None, bools and ints raise TypeError |
| Text.Digits | DAQ/client/rc_conf.py:43 | the rendering of n in a base is a non-empty numeral of that base, with a leading zero only for zero |
| Text.DigitsValue | DAQ/client/rc_conf.py:43 | the digits of n read back as n |
| Text.DigitsLength | DAQ/client/rc_conf.py:43 | the digits of n fit in k places exactly when n < base^k |
| Text.ZeroFill | dma/ADC_parsing.py:88 | zero-filling keeps the numeral as its suffix, pads with '0' only, and reaches the width unless the numeral is wider |
| Text.LeadingZeros | dma/ADC_parsing.py:88 | leading zeros do not change the value of a numeral |
| Text.PaddedRoundTrip | DAQ/client/rc_conf.py:43 | a value below base^w renders in exactly w places that read back as the value |
| Text.HexRoundTrip | DAQ/client/rc_conf.py:43 | a value below 16^w renders in exactly w lower-case hexadecimal digits that read back as the value |
| Text.DigitsLowerCase | DAQ/client/rc_conf.py:43 | the digits of a value are written in lower case in every base |
| Text.PaddedLowerCase | DAQ/client/rc_conf.py:43 | a zero-filled rendering has no upper-case digit |
| Text.Hex | DAQ/client/rc_conf.py:43 | format(n, '0wx') is a hexadecimal numeral with no upper-case digit |
| Text.IntToString | DAQ/client/rc_client.py:125 | str() of an int is never empty |
| Text.TrimLeft | DAQ/client/rc_conf.py:115 | stripping on the left never lengthens the text, leaves no leading white space, and keeps text that has none |
| Text.TrimRight | DAQ/client/rc_conf.py:115 | the same on the right |
| Text.ParseIntRoundTrip | DAQ/client/rc_conf.py:115 | int(str(i)) == i for every integer i |
| Text.ParseIntAutoRoundTrip | DAQ/client/rc_conf.py:28 | int(str(i), 0) == i for every integer i: str() never gives a leading zero or an 0x prefix |
| Text.ParseIntAutoDecimal | DAQ/client/rc_conf.py:28 | a stripped, signed decimal literal with no superfluous leading zero reads as its signed value under base 0 |
| Text.IndexOf | DAQ/client/rc_conf.py:115 | the first occurrence of the separator: it is there and nowhere before |
| Text.Split | DAQ/client/rc_conf.py:115 | split(",") gives at least one piece and no piece holds the separator |
| Text.JoinSplit | DAQ/client/rc_conf.py:115 | joining the pieces of a split with the separator gives back the text |
| Text.SplitJoin | DAQ/client/rc_conf.py:115 | splitting a join of separator-free pieces gives back the pieces |
| Text.ParseAll | DAQ/client/rc_conf.py:115 | the list comprehension succeeds exactly when every piece is an int literal, and then holds each piece's value in its place |
| Text.ParseIntList | DAQ/client/rc_conf.py:115 | a parsed list has one entry per comma-separated piece |
| Text.IntStrings | DAQ/client/rc_conf.py:115 | the decimal renderings of a list, one per entry in order |
| Text.ParseIntListRoundTrip | DAQ/client/rc_conf.py:115 | ",".join(str(x) for x in xs) parses back to xs |
| Text.NoCommaInInt | DAQ/client/rc_conf.py:115 | str() of an int holds no comma |
| RegisterBuffer.FromBytes | DAQ/client/rc_conf.py:42 | four little-endian bytes give a value below 2^32 |
| RegisterBuffer.ToBytes | DAQ/client/rc_conf.py:52 | int.to_bytes(v, 4) gives four bytes |
| RegisterBuffer.ToBytesRoundTrip | DAQ/client/rc_conf.py:42-52 | from_bytes(to_bytes(v)) == v for every v below 2^32 |
| RegisterBuffer.FromBytesRoundTrip | DAQ/client/rc_conf.py:42-52 | to_bytes(from_bytes(b)) == b for every four bytes |
| RegisterBuffer.Word | DAQ/client/rc_conf.py:41-42 | the register at an address in 0..50 is a value below 2^32 |
| RegisterBuffer.Store | DAQ/client/rc_conf.py:52 | the slice assignment writes the four little-endian bytes at 4a..4a+3 and changes no other byte |
| RegisterBuffer.StoreAt | DAQ/client/rc_conf.py:52 | a window that agrees with a store byte for byte is that store |
| RegisterBuffer.StoreThenWord | DAQ/client/rc_conf.py:42-52 | a stored register reads back as the value stored |
| RegisterBuffer.StoreKeepsOthers | DAQ/client/rc_conf.py:52 | storing one register leaves every other register as it was |
| RegisterBuffer.StoreSame | DAQ/client/rc_conf.py:42-52 | storing the value a register already holds changes nothing |
| RegisterBuffer.HexWord | DAQ/client/rc_conf.py:43 | f'0x{value:08x}' starts with "0x" followed by a hexadecimal numeral with no upper-case digit |
| RegisterBuffer.HexWordReadsBack | DAQ/client/rc_conf.py:43 | a register value renders in ten characters whose hexadecimal part reads back as the value |
| RcConf.AutoInt | DAQ/client/rc_conf.py:25-28 | an int or bool is used as it is; a string goes through int(x, 0) and raises exactly when it is not a literal; anything else raises TypeError |
| RcConf.AutoIntOfString | DAQ/client/rc_conf.py:25-28 | str(i) goes through auto_int unchanged |
| RcConf.CheckRegBoundary | DAQ/client/rc_conf.py:30-33 | no contract of its own; RcConf.BoundaryEdges carries its meaning |
| RcConf.CheckChannelsBoundary | DAQ/client/rc_conf.py:35-38 | no contract of its own; RcConf.BoundaryEdges carries its meaning |
| RcConf.BoundaryEdges | DAQ/client/rc_conf.py:30-38 | registers 0 and 50 and channels 0 and 7 pass the checks; registers -1 and 51 and channels -1 and 8 fail them |
| RcConf.ReadRegister | DAQ/client/rc_conf.py:40-45 | None exactly outside 0..50; inside, ('0x' and eight hex digits of the register, the register value) |
| RcConf.ReadSpec | DAQ/client/rc_conf.py:40-45 | read raises exactly when auto_int raises, and is otherwise the register reading |
| RcConf.ReadingValue | DAQ/client/rc_client.py:110-116 | the reading goes out as null exactly when read returned None |
| RcConf.WriteSpec | DAQ/client/rc_conf.py:48-60 | write raises exactly when auto_int raises, and returns True exactly for an int address in 0..50 and an int value that fits in four unsigned bytes |
| RcConf.AfterWrite | DAQ/client/rc_conf.py:48-60 | a write that does not return True leaves the window unchanged |
| RcConf.WriteThenRead | DAQ/client/rc_conf.py:40-53 | a write in range of a value below 2^32 returns True, changes exactly bytes 4a..4a+3 to little-endian v, and read(a) then gives ('0x%08x' % v, v) |
| RcConf.WriteRefused | DAQ/client/rc_conf.py:48-60 | an address outside 0..50, a value that does not fit, or an address given as a string gives False and leaves the window unchanged |
| RcConf.ResetClears | DAQ/client/rc_conf.py:62-76 | reset clears registers 0 and 1 and no other byte |
| RcConf.InitBootSpec | DAQ/client/rc_conf.py:79-94 | init_boot touches only registers 0 and 1, so every byte from 8 on is kept; RcConf.InitBootInverted gives its outcomes |
| RcConf.InitBootInverted | DAQ/client/rc_conf.py:79-94 | as written, an encodable value is written to register 0 only and init_boot reports failure; a value that cannot be written leaves the window as it was and init_boot reports success |
| RcConf.InitBootIntendedWritesBoth | DAQ/client/rc_conf.py:79-87 | with the test read as "reg_0 succeeded", init_boot succeeds exactly for an encodable value, and then registers 0 and 1 both hold it and nothing else changes |
| RcConf.InitDataSpec | DAQ/client/rc_conf.py:97-145 | init_data touches only registers 0 and 1; a selector that is not a string gives (False, None) and changes nothing; success comes only for "all" or with a list of channels |
| RcConf.InRangeChannels | DAQ/client/rc_conf.py:117-119 | the kept channels are no more than the listed ones and all lie in 0..7 |
| RcConf.InRangeNext | DAQ/client/rc_conf.py:117-124 | one loop step keeps the next channel exactly when it passes checkChannelsBoundary |
| RcConf.MaskNext | DAQ/client/rc_conf.py:120 | one loop step adds 2**(c-1) for the kept channel to the running mask |
| RcConf.InitDataAll | DAQ/client/rc_conf.py:102-106 | init_data("all") returns (True, "all") with 127 in registers 0 and 1; its failing arm cannot be taken |
| RcConf.InitDataList | DAQ/client/rc_conf.py:113-141 | with no channel in 0..7 nothing is written and the out-of-range channels come back; an integral mask that fits lands in registers 1 and 0 and the in-range channels come back; a channel 0 or a mask past 32 bits resets the registers and the out-of-range channels come back |
| RcConf.InitDataParsed | DAQ/client/rc_conf.py:113-141 | an unfolding step used by `InitDataList`: on a parsed list init_data takes exactly one of its three outcomes |
| RcConf.MaskWritten | DAQ/client/rc_conf.py:133-136 | a mask that fits is accepted and lands in both registers 1 and 0 |
| RcConf.AllIsEveryChannel | DAQ/client/rc_conf.py:102-120 | "all" writes the same value, 127, that listing the channels 1..7 gives |
| RcConf.FirstChannels | DAQ/client/rc_conf.py:161 | channels 1..n, in order |
| RcConf.FirstChannelsMask | DAQ/client/rc_conf.py:117-120 | the channels 1..n all pass the boundary check and their mask is 2^n - 1 |
| RcConf.NotValidAreOutOfRange | DAQ/client/rc_conf.py:126-127 | not_valid_channels is exactly the channels outside 0..7 in their order, and with the valid ones it accounts for every listed channel, duplicates included |
| RcConf.RangeSplit | DAQ/client/rc_conf.py:117-127 | the in-range and out-of-range channels together are a permutation of the list |
| RcConf.OutOfRange | DAQ/client/rc_conf.py:122-127 | every channel it keeps fails checkChannelsBoundary |
| RcConf.InRangeMembers | DAQ/client/rc_conf.py:126 | a channel is in set(valid_channels) exactly when it is listed and lies in 0..7 |
| RcConf.WithoutByRange | DAQ/client/rc_conf.py:127 | dropping the members of that set keeps exactly the out-of-range channels |
| RcConf.WithoutAppend | DAQ/client/rc_conf.py:127 | the filtering comprehension distributes over concatenation |
| RcConf.Readings | DAQ/client/rc_conf.py:174-176 | the map holds exactly the listed registers |
| RcConf.RegMonitoringSpec | DAQ/client/rc_conf.py:149-180 | reg_monitoring returns a map exactly when the register list parses and the selector is "all" or parses |
| RcConf.RegMonitoringUniform | DAQ/client/rc_conf.py:160-180 | every selected channel ("all" = 1..7) gets the same map, holding each listed register with its own reading, None exactly outside 0..50 |
| RcConf.RC.constructor | DAQ/client/rc_conf.py:6-23 | the object starts with the mapped window's contents |
| RcConf.RC.Read | DAQ/client/rc_conf.py:40-45 | read on the array gives the reading of the window (ReadSpec) |
| RcConf.RC.Write | DAQ/client/rc_conf.py:48-60 | write returns WriteSpec's result and leaves the array as AfterWrite of the old window |
| RcConf.RC.Reset | DAQ/client/rc_conf.py:62-76 | reset returns True and leaves the array with registers 0 and 1 cleared |
| RcConf.RC.InitBoot | DAQ/client/rc_conf.py:79-94 | init_boot, with its test as written, returns and leaves what InitBootSpec gives |
| RcConf.RC.InitData | DAQ/client/rc_conf.py:97-145 | init_data returns and leaves what InitDataSpec gives |
| RcConf.RC.ScanChannels | DAQ/client/rc_conf.py:113-124 | the loop keeps the in-range channels in order and accumulates their mask |
| RcConf.RC.ReadAll | DAQ/client/rc_conf.py:174-176 | the inner loop builds {reg: read(reg) for reg in rs} |
| RcConf.RC.ReadChannels | DAQ/client/rc_conf.py:173-178 | the outer loop gives every channel that map |
| RcConf.RC.RegMonitoring | DAQ/client/rc_conf.py:149-180 | reg_monitoring returns what RegMonitoringSpec gives |
| RcExp.AutoInt | runcontrol/rc_client/rc_exp.py:24-25 | int(x, 0) succeeds exactly on a string literal, giving its value; anything that is not a string raises TypeError |
| RcExp.CheckRegBoundary | runcontrol/rc_client/rc_exp.py:27-30 | no contract of its own; RcExp.SameBoundary carries its meaning |
| RcExp.SameBoundary | runcontrol/rc_client/rc_exp.py:27-30 | the reader accepts exactly the addresses 0 to 50, as the run-control agent does |
| RcExp.Read | runcontrol/rc_client/rc_exp.py:32-37 | auto_int's exception escapes, and an address outside 0..50 raises AttributeError through the missing perror |
| RcExp.ReadAsMonitored | runcontrol/rc_client/rc_exp.py:27-37 | read(str(i)) for i in 0..50, both ends inclusive, gives the register as '0x' and eight hex digits that read back as its value; any other i raises |
| RcExp.AgreesWithAgent | runcontrol/rc_client/rc_exp.py:32-37 | on a string address this reader agrees with the agent's read inside 0..50; outside, the agent returns None where this one raises |
| HvConf.ParamList | DAQ/client/hv_conf.py:176 | the eight optional parameters, one per register of the write order |
| HvConf.PresentWrites | DAQ/client/hv_conf.py:186-209 | the writes of the present parameters are no more than the parameters |
| HvConf.ProbeSpec | DAQ/client/hv_conf.py:13-28 | a probe finds the board exactly when the next oracle answer says so, and consumes that answer |
| HvConf.CheckAddressBoundary | DAQ/client/hv_conf.py:41-42 | no contract of its own; HvConf.AddressEdges carries its meaning |
| HvConf.AddressEdges | DAQ/client/hv_conf.py:41-42 | Modbus addresses 1 and 20 pass the check; 0 and 21 fail it |
| HvConf.CheckAddressIsOpen | DAQ/client/hv_conf.py:160-168 | check_address is open: open records the address asked for, so the equality test never fails; it succeeds exactly when the probe finds the board |
| HvConf.StatusString | DAQ/client/hv_conf.py:170-172 | codes 0..6 are UP, DOWN, RUP, RDN, TUP, TDN, TRIP in that order; every other code is 'undef' |
| HvConf.ConfigureWrites | DAQ/client/hv_conf.py:176-211 | configure_channel succeeds exactly when open does; then exactly the present parameters are written, in the order 0x26, 0x2D, 0x22, 0x27, 0x25, 0x2F, 0x23, 0x24; otherwise nothing is written |
| HvConf.NonePresent | DAQ/client/hv_conf.py:186-209 | with every parameter None nothing is written |
| HvConf.AllPresent | DAQ/client/hv_conf.py:186-209 | with every parameter present, write k goes to register k of the order with parameter k |
| HvConf.ChannelList | DAQ/client/hv_conf.py:222-229 | "all" gives channels 1..7; a selector that is neither "all" nor a string raises on split |
| HvConf.ProcessList | DAQ/client/hv_conf.py:232-255 | every processed channel lands in exactly one of valid and not_valid |
| HvConf.ProcessListNext | DAQ/client/hv_conf.py:232-253 | one more pass of the loop appends the channel to valid or to not_valid according to its step |
| HvConf.ProcessChannelsSpec | DAQ/client/hv_conf.py:215-255 | process_channels raises exactly when the selector's split raises |
| HvConf.ChannelsCases | DAQ/client/hv_conf.py:215-255 | a selector that is not a string raises; an unparsable list touches nothing and gives ([], []); a list is partitioned into valid and not_valid, every valid channel inside 1..20 |
| HvConf.ProcessPartition | DAQ/client/hv_conf.py:219-255 | valid and not_valid are the channels with a true and a false outcome, each in list order and with its repetitions, and together a permutation of the list; every valid channel lies in 1..20 |
| HvConf.ProcessPicks | DAQ/client/hv_conf.py:232-253 | valid and not_valid keep the list order of their channels |
| HvConf.PickMultiset | DAQ/client/hv_conf.py:232-253 | the two picks together are a permutation of the list |
| HvConf.ValidInRange | DAQ/client/hv_conf.py:235-238 | no channel outside 1..20 is ever valid |
| HvConf.StepOutcome | DAQ/client/hv_conf.py:235-253 | a channel outside 1..20 costs no probe and no write; inside, it is valid exactly when the probes of check_address and of configure_channel both find the board, and then exactly its present parameters are written to it |
| HvConf.BusGrows | DAQ/client/hv_conf.py:232-253 | processing channels never undoes an earlier bus transaction |
| HvConf.SelectorCases | DAQ/client/hv_conf.py:222-229 | "all" is channels 1..7 although a listed 20 passes the boundary check; a list with an item that is not an integer touches nothing and gives two empty lists |
| HvConf.SetOneParameter | DAQ/client/hv_conf.py:274-311 | each single-parameter setter raises TypeError, because process_channels takes no third positional argument |
| HvConf.HV.constructor | DAQ/client/hv_conf.py:7-11 | no instrument and no address yet; no bus transaction |
| HvConf.HV.Probe | DAQ/client/hv_conf.py:13-28 | probe updates the object as ProbeSpec says |
| HvConf.HV.Open | DAQ/client/hv_conf.py:30-39 | on a successful probe the instrument and the address become the ones asked for; otherwise only the probe answer is used |
| HvConf.HV.CheckAddress | DAQ/client/hv_conf.py:160-168 | check_address returns and leaves what CheckAddressSpec gives |
| HvConf.HV.WriteRegister | DAQ/client/hv_conf.py:63-112 | one write on the open instrument is appended to the bus, nothing else changes |
| HvConf.HV.SetIfPresent | DAQ/client/hv_conf.py:186-209 | a parameter that is not None is written to its register, and only then |
| HvConf.HV.SetParams | DAQ/client/hv_conf.py:186-209 | the eight optional writes append exactly the present writes in register order |
| HvConf.HV.ConfigureChannel | DAQ/client/hv_conf.py:176-211 | configure_channel returns and leaves what ConfigureSpec gives |
| HvConf.HV.ProcessChannels | DAQ/client/hv_conf.py:215-255 | the loop returns the (valid, not_valid) pair and leaves the state ProcessChannelsSpec gives; on a raising selector nothing changes |
| HvConf.HV.ProcessStepOf | DAQ/client/hv_conf.py:235-253 | one channel of the loop, as ProcessStep says |
| HvConf.HV.SetHvInitConfiguration | DAQ/client/hv_conf.py:258-272 | set_hv_init_configuration is process_channels with all eight parameters by name |
| HvConf.AppendIsPresent | DAQ/client/hv_conf.py:186-209 | writing step by step appends exactly the present writes |
| AgentSession.Reply | DAQ/client/hv_client.py:124-129 | a reply dict carries the tag under "response" and the payload under "result" |
| AgentSession.HeartbeatStep | DAQ/client/hv_client.py:42-66 | a pass of the outer loop either stays waiting or enters the command loop; it never stops the agent |
| AgentSession.PingWhenDue | DAQ/client/hv_client.py:45-48 | a Ping is sent exactly when at least PING_INTERVAL has passed since the last one, and sending restarts the timer; otherwise the timer and the Ping stay as they were |
| AgentSession.PollOutcome | DAQ/client/hv_client.py:50-66 | exactly "Alive" opens the command loop, after "Connection successful" is sent; a timeout sleeps one interval, disconnects and reconnects to the same address; any other frame is dropped without reconnecting |
| AgentSession.CommandOutcome | DAQ/client/hv_client.py:58-59 | a handled command sends at most its one reply and returns to waiting exactly when handle_commands returns False; an exception ends the session and sends nothing |
| AgentSession.StartInvariant | DAQ/client/hv_client.py:36-41 | after the first connect the session invariant holds |
| AgentSession.CountsAppend | DAQ/client/hv_client.py:62-66 | connects and disconnects add up over appended actions |
| AgentSession.TokensKeepReplies | DAQ/client/hv_client.py:47-55 | appending actions that are not JSON replies keeps every reply after a confirmation |
| AgentSession.ReconnectCounts | DAQ/client/hv_client.py:64-66 | the timeout's sleep, disconnect and connect disconnect once and connect once |
| AgentSession.AppendTokens | DAQ/client/hv_client.py:45-66 | balanced actions that are not replies keep the socket connected and the reply condition |
| AgentSession.HeartbeatKeepsInvariant | DAQ/client/hv_client.py:42-66 | every pass of the outer loop keeps the socket connected, sends no reply, and enters the command loop only after "Connection successful" |
| AgentSession.ConfirmKeeps | DAQ/client/hv_client.py:53-56 | confirming the handshake keeps the invariant, with the confirmation in the log |
| AgentSession.TimeoutKeeps | DAQ/client/hv_client.py:62-66 | the timeout's reconnection keeps the invariant |
| AgentSession.TimeoutTokens | DAQ/client/hv_client.py:45-66 | the optional Ping and the reconnection are balanced and hold no reply |
| AgentSession.PingedTokens | DAQ/client/hv_client.py:45-48 | the optional Ping neither connects nor disconnects and is no reply |
| AgentSession.CommandKeepsInvariant | DAQ/client/hv_client.py:95-242 | a handle_commands call keeps the invariant: its reply comes after the confirmation that opened the command loop |
| AgentSession.Step | DAQ/client/hv_client.py:42-74 | the device state changes only in the command loop, and after an exception nothing more happens |
| AgentSession.Run | DAQ/client/hv_client.py:42-66 | no contract of its own; AgentSession.RunKeepsInvariant, AgentSession.RunExtendsLog and AgentSession.StoppedStays carry its meaning |
| AgentSession.RunKeepsInvariant | DAQ/client/hv_client.py:25-74 | whatever handle_commands does, after every event the socket is connected and no reply has gone out before a completed handshake |
| AgentSession.RunExtendsLog | DAQ/client/hv_client.py:25-74 | nothing sent is ever taken back: the log only grows |
| AgentSession.StoppedStays | DAQ/client/hv_client.py:25-74 | once an exception has escaped client(), nothing more happens |
| HvClient.AgentConfig | DAQ/client/hv_client.py:22-33 | the HV agent pings every 2 s, polls for 5 s and identifies as HV |
| HvClient.Handle | DAQ/client/hv_client.py:95-242 | only set_init_configuration touches the HV object; handle_commands returns False exactly for the back command; the only reply it can send is hv_init_conf |
| HvClient.HandleHv | DAQ/client/hv_client.py:109-242 | an hv_command always stays in the command loop, touches the HV object only for set_init_configuration, and can only reply hv_init_conf |
| HvClient.HvCommandHandled | DAQ/client/hv_client.py:109 | an unfolding step used by the `HvClient` handling lemmas: an hv_command goes to its own branch of the dispatch |
| HvClient.UndecodableStays | DAQ/client/hv_client.py:86-102 | a frame that is not JSON makes handle_commands send nothing, return True and touch nothing; a decoded value that is not a dict crashes on .get |
| HvClient.InitConfiguration | DAQ/client/hv_client.py:112-131 | set_init_configuration sends one reply hv_init_conf holding the valid and refused channels, which split the selector's channels into two, the valid ones inside 1..20; an unparsable list replies ([], []); a selector that is not a string crashes on split |
| HvClient.InitConfHandled | DAQ/client/hv_client.py:112-131 | an unfolding step used by `InitConfiguration`: set_init_configuration replies with the result of process_channels with the eight parameters by key |
| HvClient.SettersRaise | DAQ/client/hv_client.py:135-236 | the single-parameter setters and the power commands send nothing and write no register: the call raises, a TypeError for the setters |
| HvClient.NotInitConfiguration | DAQ/client/hv_client.py:112-224 | no setter and no power command is set_init_configuration |
| HvClient.Unmatched | DAQ/client/hv_client.py:104-242 | a command of another type, or an hv_command that is not known, is ignored: no reply, stay, nothing written |
| HvClient.SetterTable | DAQ/client/hv_client.py:135-206 | set_voltage, set_limitV, set_limitI, set_limitTrip and set_threshold carry the tags hv_voltage_set, hv_voltage_limit, hv_current_limit, hv_triptime_limit and hv_threshold and read voltage_set, lim_voltage, lim_current, lim_triptime and threshold |
| HvClient.HandleCommands | DAQ/client/hv_client.py:95-242 | handle_commands on the HV object returns and leaves what Handle gives |
| HvClient.Client | DAQ/client/hv_client.py:25-74 | client() runs the session of Run over the events, and the session invariant holds at the end |
| HvClient.BackEndsCommands | DAQ/client/hv_client.py:104-107 | the back command returns False with no reply; any other clients command is ignored and returns True |
| RcClient.AgentConfig | DAQ/client/rc_client.py:20-31 | the RC agent pings every 6 s, polls for 10 s and identifies as RC |
| RcClient.PowerOnReply | DAQ/client/rc_client.py:138-155 | rc_pwr_on leaves the window as init_data does |
| RcClient.WriteText | DAQ/client/rc_client.py:119-134 | the rc_write text starts with "Successufully" exactly when the write succeeded, and ends with the address as str() renders it |
| RcClient.PowerOnText | DAQ/client/rc_client.py:141-155 | the rc_power_on text starts with "Successufully" exactly when the flag it is given is true, and ends with the channels as str() renders them |
| RcClient.PowerOnReplyIntended | DAQ/client/rc_client.py:138-155 | the same for rc_pwr_on with init_data's flag tested |
| RcClient.Handle | DAQ/client/rc_client.py:92-161 | only write_address and rc_pwr_on change the window; handle_commands returns False exactly for the back command; only the three rc_commands reply |
| RcClient.HandleRc | DAQ/client/rc_client.py:107-161 | an rc_command always stays, changes the window only for write_address and rc_pwr_on, and replies only to the three known commands |
| RcClient.UndecodableStays | DAQ/client/rc_client.py:75-99 | a frame that is not JSON changes nothing, sends nothing and returns True; a decoded value that is not a dict crashes on .get |
| RcClient.BackEndsCommands | DAQ/client/rc_client.py:102-105 | the back command returns False with no reply; any other clients command is ignored and returns True |
| RcClient.Unmatched | DAQ/client/rc_client.py:102-161 | a command of an unknown type, or an unknown rc_command, sends nothing, returns True and writes nothing |
| RcClient.ReadReply | DAQ/client/rc_client.py:109-116 | read_address sends one rc_read reply: [hex, value] of the register in range, null out of range |
| RcClient.WriteReply | DAQ/client/rc_client.py:119-134 | write_address sends one rc_write reply, the success text exactly when rc.write returned True, and then the register reads back as the value; otherwise nothing changes |
| RcClient.WriteHandled | DAQ/client/rc_client.py:119-134 | an unfolding step used by `WriteReply`: write_address replies with the text chosen by rc.write's result and leaves the window rc.write leaves |
| RcClient.RcCommandHandled | DAQ/client/rc_client.py:107 | an unfolding step used by the `RcClient` handling lemmas: an rc_command goes to its own branch of the dispatch |
| RcClient.PowerOnAlwaysSucceeds | DAQ/client/rc_client.py:138-147 | as written, rc_pwr_on always sends the success text: init_data's tuple is never false |
| RcClient.PowerOnRefusedChannel | DAQ/client/rc_client.py:138-147 | for channels "9" init_data refuses the channel and writes nothing, yet the reply says it was powered on |
| RcClient.NineRefused | DAQ/client/rc_conf.py:113-131 | init_data("9") writes nothing and returns (False, [9]) |
| RcClient.NineParses | DAQ/client/rc_conf.py:115 | "9" parses to [9] |
| RcClient.PowerOnIntendedHonest | DAQ/client/rc_client.py:140-155 | testing init_data's flag, rc_pwr_on sends the success text exactly when init_data succeeded and the failure text otherwise |
| RcClient.HandleCommands | DAQ/client/rc_client.py:92-161 | handle_commands on the RC object returns and leaves what Handle gives |
| RcClient.Client | DAQ/client/rc_client.py:23-72 | client() runs the session of Run over the events, and the session invariant holds at the end |
| TerminalServer.Accept | DAQ/server/terminal_server.py:45-63 | the loop connects only if some frame from the agent is a Ping immediately followed by its confirmation; it only ever appends to the output and the sent frames; every frame it sends is Alive to the agent |
| TerminalServer.HandshakeShift | DAQ/server/terminal_server.py:45-60 | a Ping-then-confirmation pair found among the later frames is one of the whole sequence |
| TerminalServer.ConnectSpec | DAQ/server/terminal_server.py:37-66 | a name outside ['RC', 'HV'] gives only the invalid-name message, with nothing sent and no connection; a connection implies a known name |
| TerminalServer.HandshakeConnects | DAQ/server/terminal_server.py:49-58 | a Ping from the agent followed by its confirmation prints "Ping signal received" and the success line, answers Alive once, and connects |
| TerminalServer.StrayFrames | DAQ/server/terminal_server.py:49-60 | a frame other than the agent's Ping prints the not-possible message and is skipped; a Ping whose next frame is not the confirmation is answered and both frames are consumed |
| TerminalServer.DeadlineBetweenFrames | DAQ/server/terminal_server.py:38-45 | once 10 seconds have passed no frame is received and nothing changes; before that the next frame is always taken |
| TerminalServer.ReadAccept | DAQ/server/terminal_server.py:190-200 | an undecodable reply prints the decode-failure message; a reply not from RC prints nothing; any other printed line comes from an RC reply whose response is rc_read |
| TerminalServer.ReadAcceptsReply | DAQ/server/terminal_server.py:195-196 | an rc_read reply [hex, value] prints the register number, the value and the hex form in that order |
| TerminalServer.WriteAccept | DAQ/server/terminal_server.py:227-235 | an undecodable reply prints the decode-failure message; a reply not from RC prints nothing; any other printed line comes from an RC reply whose response is rc_write |
| TerminalServer.WriteAcceptsReply | DAQ/server/terminal_server.py:231-232 | an rc_write reply prints its result text as it is |
| TerminalServer.PowerOnAccept | DAQ/server/terminal_server.py:258-266 | every decodable reply from RC raises, because .get is called on the received frame list; otherwise nothing or the decode-failure message is printed |
| TerminalServer.ServerTerminal.constructor | DAQ/server/terminal_server.py:18-22 | the console starts on the main page with prompt "\|Main>", nothing sent, nothing printed |
| TerminalServer.ServerTerminal.Connect | DAQ/server/terminal_server.py:30-66 | the console prints and sends what ConnectSpec gives; on a connection it moves to the agent's page with prompt "\|name>", otherwise the page and prompt are unchanged |
| TerminalServer.ServerTerminal.CheckClient | DAQ/server/terminal_server.py:70-77 | true exactly on the required page; otherwise prints that the command is only available there; nothing else changes |
| TerminalServer.ServerTerminal.Back | DAQ/server/terminal_server.py:82-99 | on an agent page sends back to it, prints the return message and goes to the main page; on the main page it fails on encode and changes nothing |
| TerminalServer.ServerTerminal.Quit | DAQ/server/terminal_server.py:105-120 | sends back to the agent when on an agent page, prints the shutdown message and stops the loop |
| TerminalServer.ServerTerminal.PrintMessage | DAQ/server/terminal_server.py:150-161 | on the HV page sends the hv_config print_message envelope; elsewhere sends nothing and prints the page-guard message |
| TerminalServer.ServerTerminal.RcCommand | DAQ/server/terminal_server.py:174-200 | on the RC page sends the envelope, then prints the accepted lines or stops with the exception raised; elsewhere only the page-guard message |
| TerminalServer.ServerTerminal.Read | DAQ/server/terminal_server.py:174-200 | on the RC page sends read_address with the address and prints what ReadAccept gives; when the reply raises, the error is returned and nothing is printed; elsewhere only the page-guard message |
| TerminalServer.ServerTerminal.Write | DAQ/server/terminal_server.py:212-235 | on the RC page sends write_address with address and value and prints what WriteAccept gives; when the reply raises, the error is returned and nothing is printed; elsewhere only the page-guard message |
| TerminalServer.ServerTerminal.PowerOn | DAQ/server/terminal_server.py:244-266 | on the RC page sends rc_pwr_on with the channels and prints what PowerOnAccept gives; when the reply raises, the error is returned and nothing is printed; elsewhere only the page-guard message |
| RcClient.BackEnvelope | DAQ/server/terminal_server.py:87-95 | the console's back envelope is the back command at the RC agent, which leaves its command loop without a reply |
| RcClient.ReadEnvelopeCommand | DAQ/server/terminal_server.py:180-186 | the console's read envelope is read_address with the address given |
| RcClient.WriteEnvelopeCommand | DAQ/server/terminal_server.py:216-223 | the console's write envelope is write_address with the address and value given |
| RcClient.PowerOnEnvelopeCommand | DAQ/server/terminal_server.py:248-254 | the console's power_on envelope is rc_pwr_on with the channel string given |
| RcClient.ReadRoundTrip | DAQ/client/rc_client.py:109-116 | read on the console, answered by the agent: for registers 0 to 50 the console prints the register's current value and its 0x%08x form, and the window is unchanged |
| RcClient.WriteRoundTrip | DAQ/client/rc_client.py:119-134 | write on the console, answered by the agent: the success text is printed exactly when the register is in 0 to 50 and the value fits in 32 bits, and then the register holds the value; otherwise the failure text is printed and nothing changes |
| HvClient.BackEnvelope | DAQ/server/terminal_server.py:87-95 | the console's back envelope ends the HV agent's command loop without a reply |
| HvClient.PrintEnvelopeIgnored | DAQ/client/hv_client.py:95-242 | the console's hv_config print_message envelope matches no branch of the HV agent and is ignored |
| AdcParsing.Words | dma/ADC_parsing.py:43-44 | a frame gives floor(length / 2) words, word k being bytes 2k and 2k+1 in little-endian order |
| AdcParsing.GroupReadsBack | dma/ADC_parsing.py:48 | the four hexadecimal digits of a word read back as the word, and none is white space |
| AdcParsing.HexesAreFourDigits | dma/ADC_parsing.py:48 | every rendering is four hexadecimal digits |
| AdcParsing.RowsUpTo | dma/ADC_parsing.py:52-58 | m complete groups of eight words give m rows |
| AdcParsing.Rows | dma/ADC_parsing.py:45-58 | a frame of n words gives floor(n / 8) rows; the words after the last complete group give none |
| AdcParsing.RowsUpToAt | dma/ADC_parsing.py:52-58 | row r is the stripped accumulator of words 8r to 8r+7 |
| AdcParsing.RowsAt | dma/ADC_parsing.py:52-58 | row r of a frame is made of words 8r to 8r+7 and nothing else |
| AdcParsing.SpanLength | dma/ADC_parsing.py:48-51 | k renderings give an accumulator of 5k characters and 4k digits |
| AdcParsing.SpanEnds | dma/ADC_parsing.py:48-51 | the accumulator ends in a space and does not start with white space |
| AdcParsing.SpanNoSpace | dma/ADC_parsing.py:25-26 | with its spaces removed the accumulator is the words' digits run together |
| AdcParsing.StripSpan | dma/ADC_parsing.py:53 | strip removes exactly the accumulator's trailing space |
| AdcParsing.HexSpanSplit | dma/ADC_parsing.py:48-51 | the digits of consecutive runs of words are the concatenation of each run's digits |
| AdcParsing.HexSpanAt | dma/ADC_parsing.py:48-51 | the rendering of word k sits at digits 4(k-j) to 4(k-j)+3 of the run from word j |
| AdcParsing.RowReadsBack | dma/ADC_parsing.py:47-55 | the words of a written row can be read back from it: without spaces it is 32 digits, group k reading back as word k of the row |
| AdcParsing.WriteFrame | dma/ADC_parsing.py:42-58 | the rows sent for one frame are FrameRows: none for a frame of one byte, the rows of its words otherwise |
| AdcParsing.WriteWords | dma/ADC_parsing.py:45-58 | the loop over the words sends Rows of them, a row every eighth word |
| AdcParsing.WriteMessage | dma/ADC_parsing.py:41-58 | the rows sent for a multipart message are the rows of its parts, part after part |
| AdcParsing.StringNoSpace | dma/ADC_parsing.py:25-26 | the result holds no space and is no longer than the input |
| AdcParsing.NoSpaceAppend | dma/ADC_parsing.py:25-26 | removing spaces distributes over concatenation |
| AdcParsing.NoSpaceSame | dma/ADC_parsing.py:25-26 | a string without spaces is unchanged |
| AdcParsing.Cut | dma/ADC_parsing.py:77 | event[4:-4] drops four characters at each end, and is empty for eight characters or fewer |
| AdcParsing.Bits | dma/ADC_parsing.py:87-88 | bin(v)[2:].zfill(n) is a string of 0s and 1s at least n long |
| AdcParsing.EventBits | dma/ADC_parsing.py:72-88 | an empty event is skipped; a bit string it gives is made of 0s and 1s and is at least four long; the only exception it raises is int()'s ValueError |
| AdcParsing.FieldsOf | dma/ADC_parsing.py:91-98 | on 96 bits or more, the first five fields laid end to end are bits 3 to 63 without bit 32, and the last three are bits 69 to 95 |
| AdcParsing.ParseEvent | dma/ADC_parsing.py:72-98 | a pass gives fields exactly when the event yields a bit string; an empty event is skipped |
| AdcParsing.PySlice | dma/ADC_parsing.py:91-98 | a Python slice past the end is cut short at the end |
| AdcParsing.NumeralBound | dma/ADC_parsing.py:84-85 | a numeral of n digits is below base to the power n |
| AdcParsing.PowHex | dma/ADC_parsing.py:84 | 16 to the k is 2 to the 4k |
| AdcParsing.BitsOfCut | dma/ADC_parsing.py:84-88 | the zero-filled bit string of a hex cut has four bits per digit and the cut's value |
| AdcParsing.Skipped | dma/ADC_parsing.py:72-81 | an empty event, or one of at most eight characters once spaces are removed, is skipped |
| AdcParsing.RowCut | dma/ADC_parsing.py:76-77 | a written row is 39 characters and its cut is the 24 digits of its six middle words |
| AdcParsing.ParsesCut | dma/ADC_parsing.py:84-98 | a nonempty cut of hex digits parses into the fields of its zero-filled bit string |
| AdcParsing.FieldWidths | dma/ADC_parsing.py:91-98 | a 96-bit string gives fields of 5, 16, 28, 6, 5, 5, 14 and 8 bits |
| AdcParsing.WrittenRowParses | dma/ADC_parsing.py:76-98 | every row the writer makes parses without raising into a 96-bit string worth the digits of its six middle words, and into fields of the widths above |
| AdcParsing.CollectRaised | dma/ADC_parsing.py:70-85 | an error ends the parser: later events change nothing |
| AdcParsing.CollectAppend | dma/ADC_parsing.py:70-111 | the events of two runs without error are those of the first followed by those of the second |
| AdcParsing.PassesAppend | dma/ADC_parsing.py:70-71 | passes over consecutive event lists are the passes of each |
| AdcParsing.ParseEvents | dma/ADC_parsing.py:66-111 | the parser loop writes the events ParseAll gives, or stops at the first error ParseAll gives |
| AdcParsing.RowsUpToParse | dma/ADC_parsing.py:52-98 | the first m rows of a frame parse into m events |
| AdcParsing.RowParses | dma/ADC_parsing.py:52-98 | each written row parses into an event |
| AdcParsing.AllEvents | dma/ADC_parsing.py:70-111 | when every pass yields an event, the parser writes one event per pass |
| AdcParsing.FrameRowsParse | dma/ADC_parsing.py:41-98 | the rows of any frame all parse, one event each |
| AdcParsing.MessageRowsParse | dma/ADC_parsing.py:41-111 | everything the writer sends for a message parses without raising, one event per row |
| AdcParsing.NumeralConcat | dma/ADC_parsing.py:85 | two hex numerals run together are a hex numeral |
| HvmonClient.AlarmString | highvoltage/hv_client/hvmon_client.py:25-37 | 'none' exactly for code 0; any other code renders as a leading space followed by its tags |
| HvmonClient.DecodeAlarm | highvoltage/hv_client/hvmon_client.py:25-37 | a text that reads back as tags gives a value below 16 |
| HvmonClient.TagsBelow | highvoltage/hv_client/hvmon_client.py:29-36 | tags k to 3 read back to a value below 2 to the power 4-k |
| HvmonClient.FlagsStart | highvoltage/hv_client/hvmon_client.py:29-36 | the tags rendered from bit j on are empty or start with the tag of a bit at or above j |
| HvmonClient.TagsDistinct | highvoltage/hv_client/hvmon_client.py:30-36 | the four tags OV, UV, OC and OT are pairwise distinct |
| HvmonClient.DecodeFlags | highvoltage/hv_client/hvmon_client.py:29-36 | the tags of bits k to 3 read back as the value of those bits |
| HvmonClient.LowNibble | highvoltage/hv_client/hvmon_client.py:29-36 | code & 1, & 2, & 4 and & 8 test the bits of code modulo 16, negative codes included, and together they are worth code modulo 16 |
| HvmonClient.AlarmRoundTrip | highvoltage/hv_client/hvmon_client.py:25-37 | alarmString loses exactly the bits above 3: its text reads back as the code modulo 16 |
| HvmonClient.AlarmIgnoresHighBits | highvoltage/hv_client/hvmon_client.py:29-36 | two nonzero codes that agree modulo 16 render alike |
| HvmonClient.NibbleBits | highvoltage/hv_client/hvmon_client.py:29-36 | bits 0 to 3 of a code depend only on the code modulo 16 |
| HvmonClient.AlarmFive | highvoltage/hv_client/hvmon_client.py:29-34 | code 5 renders " OV OC ", tags in bit order |
| HvmonClient.AlarmSixteen | highvoltage/hv_client/hvmon_client.py:26-37 | code 16 has none of bits 0 to 3 and renders as the bare space, not 'none' |
| HvmonClient.AlarmMinusOne | highvoltage/hv_client/hvmon_client.py:29-36 | code -1 has every bit set and renders all four tags |
| HvmonClient.StatusAgrees | highvoltage/hv_client/hvmon_client.py:39-55 | the monitor's status names agree with the HV agent's for every code |
| HvmonClient.StatusString | highvoltage/hv_client/hvmon_client.py:39-55 | statusString gives 'undef' exactly for codes outside 0 to 6 |
| HvmonClient.StatusInjective | highvoltage/hv_client/hvmon_client.py:39-55 | a name other than 'undef' identifies the code, which is between 0 and 6 |
| HvmonClient.Insert | highvoltage/hv_client/hvmon_client.py:103-105 | list.insert(i, x) puts x at i, or at the end for an index past it, and keeps the other items in order |
| HvmonClient.GetKeys | highvoltage/hv_client/hvmon_client.py:101-106 | the keys are timestamp, time and address followed by the monitor register keys in their order |
| HvmonClient.ConfigKeys | highvoltage/hv_client/hvmon_client.py:119-125 | as written the config message carries the filename under "filename" and nothing under "filelabel" |
| HvmonClient.ConfigKeysIntended | highvoltage/hv_client/hvmon_client.py:119-125 | with the key spelt "filelabel", the label is found there and the filename under "filename" |
| HvmonClient.ConfigMessage | highvoltage/hv_client/hvmon_client.py:119-125 | the config message carries "config" under "type" and the --freq argument under "frequency"; HvmonClient.ConfigKeys gives the filename and label keys |
| HvmonClient.ConfigHead | highvoltage/hv_client/hvmon_client.py:119-122 | the first three members bind "filename" to the -f argument and do not bind "filelabel" |
| HvmonServer.StampReadsBack | highvoltage/hv_server/hvmon_server.py:19 | the %Y%m%d-%H%M stamp is 13 characters with a dash at 8, and its five fields read back as the year, month, day, hour and minute |
| HvmonServer.Stamp | highvoltage/hv_server/hvmon_server.py:19 | the stamp is 13 characters long with the dash at position 8; HvmonServer.StampReadsBack gives its fields |
| HvmonServer.GenerateFilename | highvoltage/hv_server/hvmon_server.py:14-23 | a name it returns is truthy, and the only exceptions are the ValueError with the option message and the AttributeError of .get; HvmonServer.GenerateCases gives each case |
| HvmonServer.StampSlices | highvoltage/hv_server/hvmon_server.py:19 | the five fields of a stamp sit at 0-3, 4-5, 6-7, 9-10 and 11-12 |
| HvmonServer.GenerateCases | highvoltage/hv_server/hvmon_server.py:14-23 | a truthy filename is used as it is; failing that a truthy label gives label-stamp.csv; with neither the call raises ValueError with the option message; a config that is not a dict fails on get |
| HvmonServer.LabelledName | highvoltage/hv_server/hvmon_server.py:18-20 | the labelled name is the label, a dash, the stamp and .csv |
| HvmonServer.NameSlices | highvoltage/hv_server/hvmon_server.py:19-20 | where the label, the stamp and the suffix sit in a labelled name |
| HvmonServer.EmptyIsAbsent | highvoltage/hv_server/hvmon_server.py:15-23 | an empty filename and an empty label count as absent and give ValueError |
| HvmonServer.LabelGivesName | highvoltage/hv_server/hvmon_server.py:18-20 | without a filename a truthy label gives the labelled name |
| HvmonServer.LabelOnlyRejected | highvoltage/hv_client/hvmon_client.py:119-125 | as written a monitor client started with only -l is refused by the server with ValueError, whatever the label |
| HvmonServer.LabelOnlyNamed | highvoltage/hv_server/hvmon_server.py:14-20 | with the key spelt "filelabel", a client started with only a nonempty -l gets label-stamp.csv |
| HvmonServer.FilenameWins | highvoltage/hv_server/hvmon_server.py:15-16 | a client started with a nonempty -f gets that name, as written and as intended |

## Left out

- **JSON text.** `json.dumps` and `json.loads` are not modelled: a frame is either a decoded `Value` or an undecodable token. Floats and duplicate-key ordering beyond "the last binding wins" are not represented.
- **Integer grammar.** `auto_int`'s `int(x, 0)` knows only an optional sign, decimal digits (a single `0` or no leading zero) and `0x` hex. Underscores, `0o`/`0b` and the other spellings are not modelled. `int()` in the channel lists accepts surrounding white space, a sign and decimal digits.
- **Hex parsing in the DMA parser.** `AdcParsing.EventBits` also takes `int(cut, 16)` to accept only hex digits. Python would also take a sign, a `0x` prefix, underscores and white space other than spaces. Rows the writer makes never contain any of these.
- **Transport and timing.** ZeroMQ sockets and pollers, `time.sleep`, `KeyboardInterrupt`/`ZMQError` exits and `zmq.Again` are not modelled. A loop that finds no more events, or a console handshake whose frames run out, ends the model of that loop. The agent's two clock readings per pass are taken as one reading carried by the event. The ROUTER identity frame is the `identity` of a `Frame`.
- **Modbus.** `probe`'s retries, the IOError cases and `minimalmodbus` itself are not modelled. A probe answer is an oracle value, and `write_register` always succeeds and is appended to a log of writes. The log does not record the function code: `setRateRampup` writes with function code 6 (write single register), the other setters with `minimalmodbus`'s default 16 (write multiple registers).
- **Buffer setup.** `/dev/uio0`, `mmap` and the `sys.exit` calls are not modelled; the RC object starts from an allocated 0x10000-byte array. `struct` packing is taken in little-endian order.
- **Floats and monitor registers.** `readMonRegisters`, `getVoltage`, `getCurrent`, `getVref` and the other float getters are not modelled. `readMonRegisters` calls `convert_temp`, which is not defined. `get_keys` takes the monitor keys as its input.
- **Code that crashes as written.**
  - The HV agent's `set_power_on`/`set_power_off` call methods that do not exist, and the single-parameter setters raise TypeError. Both are modelled as crashes of the agent.
  - `do_power_on` calls `.get` on the received list; its reply handling always raises for an RC reply.
- **Console configuration.** The first of the two `do_print_message` definitions is overridden by the second, so only the HV one is modelled. The console binds the HV endpoint on a different port from the one the HV agent connects to (`DAQ/server/terminal_server.py:10` and `DAQ/client/hv_client.py:28`); this is configuration and is not modelled.
- **Monitoring and CSV path.**
  - `send_data`, `receive_data` and `main` of the HV monitor are not modelled, and neither is all of `rcmon_client.py`.
  - The CSV writers, the `multiprocessing` pipe, cmd2 tables, `check_file_exists` and the websockets are not modelled.
  - The DMA writer and parser are taken over the sequences of frames and rows they exchange.
- **Clock readings.** `HvmonServer.Stamp` covers four-digit years only (`ValidMoment`); `strftime('%Y')` on years outside 1000..9999 is not modelled.
- **Config transport.**
  - The config message travels through `json.dumps` and `json.loads`, which are taken as the identity.
  - `HvmonClient.ConfigMessage` represents an argument that was not given as `None` and one that was given as a string.
- Json.Repr: the `\uXXXX` and `\UXXXXXXXX` escapes repr() uses for characters above U+00FF that Python counts as non-printable are not modelled; the model copies those characters as they are. Quote choice, backslash escapes and `\xhh` escapes below U+0100 are modelled.
- TerminalServer.ServerTerminal.Read: the reply frame is a parameter. The model does not say what the console does when no reply ever comes; the code then blocks for good.

## Findings

| source | as written | input that shows it | evidently intended | confidence | as-written member | corrected member |
|---|---|---|---|---|---|---|
| DAQ/client/rc_conf.py:85 | `init_boot` writes register 1 only when `write(0, value)` returned False, because it compares the boolean with `0` | `init_boot(5)` writes 5 to register 0 only and returns False | write register 1 and return True when the write to register 0 succeeded | not executed | RcConf.InitBootInverted | RcConf.InitBootIntendedWritesBoth |
| DAQ/client/rc_client.py:140 | `if rc.init_data(channels)` tests a tuple, which is always true, so the success text is always sent | `rc_pwr_on` with channels `"9"`: nothing is written, init_data returns `(False, [9])`, and the reply says the channels were powered on | test the first item of the tuple | not executed | RcClient.PowerOnRefusedChannel | RcClient.PowerOnIntendedHonest |
| highvoltage/hv_client/hvmon_client.py:123 | the label is sent under the key `"filelable"`, and the server reads `"filelabel"` | a monitor client started with `-l run1` and no `-f`: the server raises ValueError | send the label under `"filelabel"` | not executed | HvmonServer.LabelOnlyRejected | HvmonServer.LabelOnlyNamed |
