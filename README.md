# RK3326 U-Boot charge screen, panel commands, text console and board revision

This project is a Dafny model of four parts of the RK3326 U-Boot tree used by the
ODROID-GO Advance and the Anbernic RG351 handhelds. It proves properties of each part.

- **The charge-animation display** (`drivers/power/charge_animation.c`) runs before boot
  while a charger is attached.
  - Its platform data comes from the device tree. The screen-on voltage is clamped to the
    exit voltage.
  - Probe picks the fuel gauge and the charger from the fuel-gauge class.
  - `charge_animation_show` runs its entry checks. It then runs the extreme-low-power loop
    and the charging loop: poll the gauge, apply the low-power latch, choose a frame from
    the image table, draw it, advance it, handle the power key, and handle Ctrl-C.
  - The private fields of the device and the driver's statics are fields of the class
    `ChargeDriver.ChargeDevice`. Its methods follow the C code statement by statement.
  - Each method is proved equal to a function of `ChargeSpec` over the old state.
    `ChargeProps` proves what the driver promises about those functions.
- **The simple panel driver** (`drivers/video/drm/rockchip_panel.c`).
  - `PanelCmds` covers parsing the `panel-init-sequence` / `panel-exit-sequence` byte
    streams into command descriptors, with its two passes: count, then fill the
    allocated array. It includes an encoder, proved to round-trip with the parser.
  - `PanelSend` covers sending the commands over bit-banged 9-bit SPI, the MCU bus or
    MIPI DSI.
  - `Panel` covers the `prepared` and `enabled` guards of the panel functions.
- **The frame-buffer text console** (`drivers/video/console_normal.c`). A byte array is
  the frame buffer. The model covers:
  - filling a text row;
  - scrolling rows with `memmove`;
  - the live `putc_xy`, which expands the 46 rows of a 32x64 glyph into 3-byte pixels,
    reading each font byte most significant bit first;
  - probe's grid arithmetic.
- **The `hwrev` command** (`cmd/hwrev.c`). It classifies an ADC reading into a board
  revision and the device trees to load. Because of its `if (1)` branch it always
  answers RG351MP.

Hardware and environment calls appear in the model in one of three ways:

- as inputs: a `Tick` per loop pass with the clock, the gauge readings, the keys, the
  timer interrupt and Ctrl-C; or the results of regulator and bus writes;
- as recorded traces: `Effect` for the charge driver, `Event` for the panel interface;
- as the frame-buffer array itself.

`get_timer(base)` is `now - base` on a clock the environment supplies. The two builds of
the charge driver (ODROID-GO Advance and generic) are a runtime `Platform` value.

Four behaviours of the code worth noting:

- **The Android charge tag.** It is set only after the charger-online check
  (`ChargeProps.BootargsAfterChargerCheck`).
- **The boot mode.** In the generic build the boot-mode check only logs and does not stop
  charging (`ChargeProps.GenericIgnoresBootMode`).
- **The preboot command.** It is ignored exactly when it contains "dvfs"
  (`ChargeProps.PrebootCheck`).
- **The low-power latch on the GO Advance.** The latch forces only the `screen_on` variable
  off and never calls `lcd_onoff(false)`. A short or long press in a latched pass calls
  `lcd_onoff(true)`, so the panel stays powered while every later latched pass suspends
  (`ChargeProps.LatchLeavesPanelOn`).

## Model

| member | source | states |
|---|---|---|
| DeviceTree.ReadU32Default | drivers/power/charge_animation.c:110-139 | A present property gives its value; an absent one gives the default passed in |
| ChargeConfig.OfdataToPlatdata | drivers/power/charge_animation.c:105-151 | The screen-on voltage never exceeds the exit voltage: it is the property read when that is within the exit voltage and the exit voltage otherwise; every other field is its property as read, with 0 for an absent one except the screen-off interval, which defaults to 15 s |
| ChargeConfig.GoAdvanceScreenOnVoltage | drivers/power/charge_animation.c:122-142 | On the GO Advance the screen-on voltage is the low-power voltage capped at the exit voltage, and the low-power voltage itself stays uncapped |
| ChargeConfig.ConfigDefaults | drivers/power/charge_animation.c:110-139 | A node without properties turns every feature off except the 15-second automatic screen-off |
| ChargeArith.CMod | drivers/power/charge_animation.c:374-376 | C's `%`: dividend = truncated quotient * divisor + remainder, with the remainder carrying the dividend's sign |
| ChargeArith.SocDigitsSpell | drivers/power/charge_animation.c:374-387 | For 0..100 the hundreds, tens and units digits are decimal digits that spell the state of charge, and the leading "1" is drawn exactly at 100 |
| ChargeArith.NegativeSocDigits | drivers/power/charge_animation.c:374-376 | A negative reading splits into a zero hundreds digit and non-positive tens and units that still sum to it |
| ChargeArith.BatteryVoltsRoundsDown | drivers/power/charge_animation.c:368 | The "battery : %d.%d V" text is the voltage rounded down to a tenth of a volt |
| ChargeArith.ChargingTime | drivers/power/charge_animation.c:957-961 | The reported seconds and milliseconds add up to the elapsed time, with fewer than 1000 ms left over |
| ChargeImages.BuiltInTablesOk | drivers/power/charge_animation.c:77-102 | Both built-in image tables have rising thresholds ending at 100 with the failure frame last; they hold 5 and 7 frames |
| ChargeImages.StartIdx | drivers/power/charge_animation.c:804-817 | The scan keeps the previous start index or picks a charge-level frame, never anything past the full frame |
| ChargeImages.ScanStartIdx | drivers/power/charge_animation.c:805-817 | The `for` loop with its two `break`s computes the start index the scan specifies |
| ChargeImages.ScanInterval | drivers/power/charge_animation.c:805-811 | A state of charge in [image[i].soc, image[i+1].soc) below the full frame selects frame i |
| ChargeImages.ScanFull | drivers/power/charge_animation.c:813-816 | A state of charge of 100 or more selects the full frame n-2 |
| ChargeImages.ScanBelow | drivers/power/charge_animation.c:805-817 | Below the first threshold nothing matches and the previous start index is kept |
| ChargeImages.ScanNeverFailureFrame | drivers/power/charge_animation.c:805-817 | The scan never selects the failure frame n-1 |
| ChargeImages.GenericTableScan | drivers/power/charge_animation.c:94-102 | With the generic table 4 keeps the old index, 19 gives 0, 20 gives 1, 99 gives 4 and 100 gives 5 |
| ChargeImages.GoAdvanceTableScan | drivers/power/charge_animation.c:78-84 | With the GO Advance table 4 keeps the old index, 59 gives 0, 60 gives 1, 99 gives 2 and 100 gives 3 |
| ChargeSpec.TimerIrqHandler | drivers/power/charge_animation.c:272-282 | The wake-up interrupt posts a short press and changes no other field |
| ChargeSpec.CheckKeyPress | drivers/power/charge_animation.c:153-195 | Reading the key changes at most the wake-up flag, and only by clearing it |
| ChargeSpec.PollGauge | drivers/power/charge_animation.c:701-755 | Polling the gauge leaves the frame indices and the low-power latch alone |
| ChargeSpec.Latch | drivers/power/charge_animation.c:783-796 | The latch step keeps the start index and either keeps the frame index or resets it |
| ChargeSpec.SelectFrame | drivers/power/charge_animation.c:804-825 | After selection the indices are inside the table and the frame index is a real frame, not the reset value |
| ChargeSpec.Draw | drivers/power/charge_animation.c:830-848 | Drawing or suspending keeps the frame indices, the latch and the voltage |
| ChargeSpec.Advance | drivers/power/charge_animation.c:852-859 | The period step keeps the start index and leaves the frame index unchanged or between the reset value and the full frame |
| ChargeSpec.ShowImages | drivers/power/charge_animation.c:757-859 | From the `show_images` label to the period check the indices stay inside the table, and the latch is what the latch step left |
| ChargeSpec.HandleKeys | drivers/power/charge_animation.c:869-941 | A key leaves the start index alone and sets the frame index to itself, the reset value or the failure frame |
| ChargeSpec.CtrlC | drivers/power/charge_animation.c:946-951 | The Ctrl-C step never changes the loop's locals |
| ChargeSpec.Pass | drivers/power/charge_animation.c:695-952 | Every pass of the charging loop keeps the frame indices inside the table |
| ChargeSpec.Display | drivers/power/charge_animation.c:757-951 | The part of a pass after the gauge poll keeps the frame indices inside the table |
| ChargeProps.RtcAlarmIsLongPress | drivers/power/charge_animation.c:159-166 | An RTC alarm reads as a long press whatever the power key says, and changes nothing |
| ChargeProps.WakeupPressConsumedOnce | drivers/power/charge_animation.c:177-184 | A pending wake-up press is reported as a short press once; the flag is cleared, so the next read returns the key itself |
| ChargeProps.AutoScreenOffPress | drivers/power/charge_animation.c:177-192 | Without auto wake-up, a synthetic short press happens exactly when the screen-off timer runs longer than its interval; with auto wake-up and no pending press, the key reads unchanged |
| ChargeProps.SuspendGate | drivers/power/charge_animation.c:224-261 | Within 5 s of the last wake-up nothing happens; otherwise the suspend calls are appended, the wake-up time is stamped and nothing else changes |
| ChargeProps.SuspendCoolDown | drivers/power/charge_animation.c:224-226 | A second suspend attempted within 5 s after the first one woke up does nothing |
| ChargeProps.SuspendResumeMirror | drivers/power/charge_animation.c:228-259 | A suspend makes exactly one sleep call, and after it resumes what was suspended in the reverse order |
| ChargeProps.LedsSkipSameSoc | drivers/power/charge_animation.c:418-425 | The generic build leaves the LEDs alone while the state of charge is unchanged |
| ChargeProps.LedsFollowSoc | drivers/power/charge_animation.c:426-450 | The charging LED is lit below 100 % (blinking only on the GO Advance); the full LED is on exactly at 100 % |
| ChargeProps.LedsChargingFailure | drivers/power/charge_animation.c:432-437 | A failing charging-LED write is returned at once and the full LED is not touched; the generic build then skips the same level |
| ChargeProps.LedsUpdateAppends | drivers/power/charge_animation.c:414-451 | Updating the LEDs only appends calls |
| ChargeProps.ThrottledPollReadsNothing | drivers/power/charge_animation.c:701-702 | Within a second of the last poll nothing is read and the pass goes straight to the display |
| ChargeProps.ChargerOfflineShutsDown | drivers/power/charge_animation.c:716-731 | An offline charger switches the panel off and asks the PMIC to shut down; if that returns, the loop goes on |
| ChargeProps.FailedReadEndsPass | drivers/power/charge_animation.c:736-752 | A failed state-of-charge, voltage or current read ends the pass early (`continue`), without touching the device state or the first-poll phase |
| ChargeProps.SuccessfulPoll | drivers/power/charge_animation.c:704-755 | A good poll records the readings and the poll time and ends the first-poll phase |
| ChargeProps.LatchHoldsScreenOff | drivers/power/charge_animation.c:783-848 | While latched and not above the screen-on voltage, `screen_on` is forced false, whatever the keys did, and the pass suspends instead of drawing |
| ChargeProps.LatchLeavesPanelOn | drivers/power/charge_animation.c:783-916 | On the GO Advance a latched pass only suspends: it never powers the panel down. A short or long press in it records `lcd_onoff(true)` and sets `screen_on`, which the next latch clears again without powering the panel down |
| ChargeProps.LatchRelease | drivers/power/charge_animation.c:791-825 | A voltage above the screen-on voltage clears the latch, turns the screen on and restarts the animation at the start frame |
| ChargeProps.LatchOnlyVoltageClears | drivers/power/charge_animation.c:783-796 | Only a voltage above the screen-on voltage clears the latch, and no pass sets it again |
| ChargeProps.DrawOnlyOnChange | drivers/power/charge_animation.c:830-848 | With the screen on, a frame is drawn exactly when its index changed; with it off, the screen-off timer is cleared and a suspend is tried |
| ChargeProps.DrawOnce | drivers/power/charge_animation.c:832-841 | Drawing the same frame twice in a row draws it once |
| ChargeProps.AdvanceFrame | drivers/power/charge_animation.c:852-859 | Past its period a frame moves to the next one, and past the full frame back to the reset value; before that nothing changes |
| ChargeProps.SelectedFrameInTable | drivers/power/charge_animation.c:804-825 | After the selection step 0 <= show_idx <= n-1 and the start index is a charge-level frame |
| ChargeProps.ShortPressToggles | drivers/power/charge_animation.c:870-906 | A short press toggles the screen and resets both frame indices; switching the screen off stamps the suspend delay |
| ChargeProps.LongPress | drivers/power/charge_animation.c:907-938 | A long press turns the screen on. Below the exit level or exit voltage it shows the failure frame and skips the Ctrl-C check; otherwise it shows the logo and leaves the loop |
| ChargeProps.CtrlCExits | drivers/power/charge_animation.c:946-951 | Ctrl-C leaves the loop, showing the logo exactly when the voltage is at least the screen-on voltage |
| ChargeProps.PassExitsOnlyByKeyOrCtrlC | drivers/power/charge_animation.c:695-952 | A pass leaves the charging loop only after a good poll, through a long press that allows boot or through Ctrl-C |
| ChargeProps.LowPassKeepsScreenOff | drivers/power/charge_animation.c:518-531 | An extreme-low-power pass never turns the screen on, and switches it off once the display is more than 5 s old |
| ChargeProps.LowRunKeepsScreenOff | drivers/power/charge_animation.c:482-553 | Inside the extreme-low-power loop the screen is never turned on, and once off it stays off |
| ChargeProps.LowRunEndsCharged | drivers/power/charge_animation.c:482-549 | Without Ctrl-C the extreme-low-power loop only ends once the voltage has reached the low-power voltage plus 50 mV |
| ChargeProps.LowRunStopsAboveFloor | drivers/power/charge_animation.c:482-549 | Conversely, the loop is done by the end of any pass that reads an online charger, a state of charge in 0..100 and a voltage at or above the low-power voltage plus 50 mV |
| ChargeProps.ExtremLowPowerResult | drivers/power/charge_animation.c:478-560 | A failed first reading is -EINVAL with no effect; otherwise the loop's result is 0, with the screen turned back on if it went off and the wake-up timer released |
| ChargeProps.NoBatteryNoCharge | drivers/power/charge_animation.c:596-599 | Without a battery nothing is done and 0 is returned |
| ChargeProps.ExtremFailureReturned | drivers/power/charge_animation.c:607-611 | A failure of the extreme-low-power stage is returned |
| ChargeProps.PrebootCheck | drivers/power/charge_animation.c:613-617 | A preboot command without "dvfs" ends the display with 0; one with "dvfs" behaves as no preboot command |
| ChargeProps.GenericIgnoresBootMode | drivers/power/charge_animation.c:619-636 | The generic build's outcome does not depend on the boot mode |
| ChargeProps.BootargsAfterChargerCheck | drivers/power/charge_animation.c:618-661 | Without a preboot command, the gate goes like this. On the GO Advance a normal boot mode returns 0 with nothing done, and so does an offline charger. Past both checks the Android charge tag is set exactly when Android charging is on. Then U-Boot charging off returns 0, a failed voltage read returns -EINVAL, and otherwise the charging loop starts |
| ChargeProps.StartLatched | drivers/power/charge_animation.c:663-666 | Charging starts latched with the screen off exactly when the voltage is at most the screen-on voltage plus 50 mV, and starts in a valid state |
| ChargeDriver.ChooseDevicesLast | drivers/power/charge_animation.c:983-995 | The fuel gauge is the last device that measures the battery, and there is none only if no device does. A chosen charger is a charger-only device with no charger-only or combined device after it. There is no charger only when every charger-only device is followed by a combined one |
| ChargeDriver.FgChargerGetDevice | drivers/power/charge_animation.c:969-998 | A class lookup error is returned with no devices; otherwise the loop's choice is returned, with 0 exactly when a gauge was found and -ENODEV otherwise |
| ChargeDriver.ChargeDevice.constructor | drivers/power/charge_animation.c:1088-1097 | Binding reads the platform data and starts from zeroed private data and statics (`old_soc` -1) |
| ChargeDriver.ChargeDevice.Probe | drivers/power/charge_animation.c:1004-1081 | Probe succeeds exactly when the PMIC, a fuel gauge, the power key, a GO Advance battery of at least 1000 mV and a valid state of charge are all present. A PMIC or class error is passed on; a missing gauge is -ENODEV; the later checks give -EINVAL. On success it installs the build's image table and the optional devices found |
| ChargeDriver.ChargeDevice.TimerIrqHandler | drivers/power/charge_animation.c:272-282 | The handler's new state is the one ChargeSpec.TimerIrqHandler specifies |
| ChargeDriver.ChargeDevice.CheckKeyPress | drivers/power/charge_animation.c:153-195 | The key state and the new wake-up flag are those of ChargeSpec.CheckKeyPress |
| ChargeDriver.ChargeDevice.SystemSuspendEnter | drivers/power/charge_animation.c:211-270 | The new suspend stamp and recorded calls are those of ChargeSpec.SystemSuspendEnter |
| ChargeDriver.ChargeDevice.LedsUpdate | drivers/power/charge_animation.c:414-451 | The return value, `old_soc` and the LED writes are those of ChargeSpec.LedsUpdate |
| ChargeDriver.ChargeDevice.ExtremLowPass | drivers/power/charge_animation.c:482-553 | One pass of the extreme-low-power loop, as ChargeSpec.LowPass specifies |
| ChargeDriver.ChargeDevice.ExtremLowShow | drivers/power/charge_animation.c:513-552 | The rest of a pass after a valid state of charge, as ChargeSpec.LowBack specifies |
| ChargeDriver.ChargeDevice.ChargeExtremLowPower | drivers/power/charge_animation.c:466-561 | The whole extreme-low-power function, as ChargeSpec.ExtremLowPower specifies |
| ChargeDriver.ChargeDevice.PollGauge | drivers/power/charge_animation.c:701-755 | The throttled poll, as ChargeSpec.PollGauge specifies |
| ChargeDriver.ChargeDevice.DrawFrame | drivers/power/charge_animation.c:830-848 | Step 3, as ChargeSpec.Draw specifies |
| ChargeDriver.ChargeDevice.LatchAndSelect | drivers/power/charge_animation.c:783-825 | The latch followed by the frame selection, as ChargeSpec.Latch and ChargeSpec.SelectFrame specify |
| ChargeDriver.ChargeDevice.AdvanceFrame | drivers/power/charge_animation.c:852-859 | The period check, as ChargeSpec.Advance specifies |
| ChargeDriver.ChargeDevice.ShowImages | drivers/power/charge_animation.c:757-859 | From `show_images` to the period check, as ChargeSpec.ShowImages specifies |
| ChargeDriver.ChargeDevice.HandleKeys | drivers/power/charge_animation.c:869-941 | Step 4, as ChargeSpec.HandleKeys specifies |
| ChargeDriver.ChargeDevice.MainPass | drivers/power/charge_animation.c:695-952 | One pass of the charging loop, as ChargeSpec.Pass specifies |
| ChargeDriver.ChargeDevice.Display | drivers/power/charge_animation.c:757-951 | The part of a pass after a successful poll, as ChargeSpec.Display specifies |
| ChargeDriver.ChargeDevice.ChargingLoop | drivers/power/charge_animation.c:695-952 | The `while (1)` loop over the given passes, as ChargeSpec.Run specifies |
| ChargeDriver.ChargeDevice.ChargeAnimationShow | drivers/power/charge_animation.c:563-967 | The whole display, as ChargeSpec.ChargeAnimationShow specifies |
| ChargeDriver.ChargeDevice.StartCharging | drivers/power/charge_animation.c:663-967 | From the screen-off decision to the end, as ChargeSpec.ChargeLoop specifies |
| PanelCmds.GetPanelCmdType | drivers/video/drm/rockchip_panel.c:81-92 | NULL is -EINVAL, a "spi" prefix is SPI, a "mcu" prefix is MCU and every other string is DEFAULT, in both directions |
| PanelCmds.Descriptors | drivers/video/drm/rockchip_panel.c:102-133 | Every payload the parser records lies inside the buffer |
| PanelCmds.DescriptorLayout | drivers/video/drm/rockchip_panel.c:119-133 | Descriptor i copies the three header bytes at offset sum over j<i of (3 + len_j), and its payload starts 3 bytes later |
| PanelCmds.TrailingRemainder | drivers/video/drm/rockchip_panel.c:102-111 | The counted commands cover the stream except for a trailing remainder of at most 3 bytes |
| PanelCmds.DecodeEncode | drivers/video/drm/rockchip_panel.c:94-136 | Parsing an encoded list gives the list back, except that a final command with an empty payload is dropped |
| PanelCmds.EncodeDecode | drivers/video/drm/rockchip_panel.c:94-136 | Re-encoding what the parser found gives back the stream up to its uncounted remainder |
| PanelCmds.PanelCmdList.constructor | drivers/video/drm/rockchip_panel.c:545-547 | A freshly allocated list has no descriptors and a zero count |
| PanelCmds.CountCmds | drivers/video/drm/rockchip_panel.c:102-111 | The counting loop counts exactly the descriptors of the stream |
| PanelCmds.ParseCmds | drivers/video/drm/rockchip_panel.c:94-136 | A failed allocation gives -ENOMEM and no array; otherwise 0, with an array holding exactly the stream's descriptors and `cmd_cnt` their number |
| Panel.PlatDefaults | drivers/video/drm/rockchip_panel.c:530-541 | Without the optional properties every delay is 0, the bus format is RBG888_1X24 and bpc is 8 |
| Panel.ProbeCmdType | drivers/video/drm/rockchip_panel.c:648-652 | A missing `rockchip,cmd-type` is DEFAULT; a present one is classified by `get_panel_cmd_type` |
| Panel.RockchipPanel.constructor | drivers/video/drm/rockchip_panel.c:704-712 | The panel starts without command lists, neither prepared nor enabled, with nothing sent |
| Panel.RockchipPanel.OfdataToPlatdata | drivers/video/drm/rockchip_panel.c:523-578 | Reads the delays and formats with their defaults. The result is 0 exactly when every present sequence's lists could be allocated, and -ENOMEM otherwise, with no list kept and the command type untouched. On success each present sequence has a list holding its descriptors, and the command type is the one probe chooses |
| Panel.RockchipPanel.SendCmds | drivers/video/drm/rockchip_panel.c:382-393 | A present list goes out over SPI, the MCU bus or DSI as the command type says |
| Panel.RockchipPanel.Prepare | drivers/video/drm/rockchip_panel.c:279-397 | Does nothing when already prepared. A regulator failure returns early and leaves it unprepared. Otherwise it sends the on-commands and becomes prepared |
| Panel.RockchipPanel.Unprepare | drivers/video/drm/rockchip_panel.c:399-471 | Does nothing when not prepared; otherwise it sends the off-commands. Either way it ends unprepared |
| Panel.RockchipPanel.Enable | drivers/video/drm/rockchip_panel.c:473-488 | The panel ends enabled; the enable delay is waited, when non-zero, only if it was not enabled before |
| Panel.RockchipPanel.Disable | drivers/video/drm/rockchip_panel.c:490-505 | The panel ends disabled; the disable delay is waited, when non-zero, only if it was enabled before |
| PanelSend.DelayAfter | drivers/video/drm/rockchip_panel.c:182-183 | A delay follows a command exactly when its delay byte is non-zero, and lasts that many milliseconds |
| PanelSend.PassBit | drivers/video/drm/rockchip_panel.c:150-159 | Pass i of the shift loop puts wire bit i on SDI: bit 8 of the word shifted left i times |
| PanelSend.WriteSpiCmds | drivers/video/drm/rockchip_panel.c:138-164 | The GPIO writes are exactly the SPI frame of the type and value |
| PanelSend.WordBits | drivers/video/drm/rockchip_panel.c:145-151 | The first wire bit is set exactly when the type is non-zero; the other eight are bits 7 to 0 of the value |
| PanelSend.SpiFrameShape | drivers/video/drm/rockchip_panel.c:143-163 | A frame is CS low, then nine bits MSB first (each as SDI, SCL low, SCL high), then CS high |
| PanelSend.SpiLowByteOnly | drivers/video/drm/rockchip_panel.c:145-161 | Only the type and the low byte of the value reach the wire |
| PanelSend.SpiTwoBytePayload | drivers/video/drm/rockchip_panel.c:204-209 | For a two-byte payload packed as p0 << 8 \| p1, only p1 reaches the wire |
| PanelSend.SendSpiCmds | drivers/video/drm/rockchip_panel.c:190-216 | A NULL list is -EINVAL with nothing sent; otherwise 0, with one SPI frame and its delay per descriptor |
| PanelSend.SendMcuCmds | drivers/video/drm/rockchip_panel.c:166-188 | A NULL list is -EINVAL with nothing sent; otherwise 0, with bypass on, one command per descriptor, then bypass off |
| PanelSend.McuOnePerCommand | drivers/video/drm/rockchip_panel.c:174-185 | With the delays dropped, the MCU commands are exactly one per descriptor, in order: command i carries descriptor i's type and the first byte of its payload |
| PanelSend.McuTraceShape | drivers/video/drm/rockchip_panel.c:166-188 | The MCU trace opens with bypass on and closes with bypass off, and between them holds only data commands and delays |
| PanelSend.DsiWrite | drivers/video/drm/rockchip_panel.c:230-248 | Generic types go to the generic write and DCS types to the DCS write; any other type has no write |
| PanelSend.DsiSuccess | drivers/video/drm/rockchip_panel.c:226-277 | Sending succeeds exactly when every command has a supported type and a non-negative bus result |
| PanelSend.DsiFailure | drivers/video/drm/rockchip_panel.c:244-253 | At the first failing command, the earlier commands have been sent and the later ones not. An unsupported type is -EINVAL with nothing written for it; a bus error is returned after its write |
| PanelSend.SendDsiCmds | drivers/video/drm/rockchip_panel.c:218-277 | A NULL list is -EINVAL with nothing sent; otherwise the result and the writes are those of the DSI run over the descriptors |
| PanelSend.DsiStaysFailed | drivers/video/drm/rockchip_panel.c:250-253 | Once a prefix of the list has failed, later commands change neither the result nor the writes |
| Console.RowPixel | drivers/video/console_normal.c:29-78 | A row fill stores something per pixel exactly for 8, 16 and 32 bits per pixel |
| Console.RowPixelValue | drivers/video/console_normal.c:30-73 | The 8-, 16- and plain 32-bit stores hold the colour truncated to the pixel width. The LCD build stores nothing when transparent, the LCD background when one is set, and the colour's red, green and blue otherwise |
| Console.RowPixelLcd | drivers/video/console_normal.c:52-58 | The 3-byte pixel of a colour word holds its low 24 bits |
| Console.PaintedPixel | drivers/video/console_normal.c:34-35 | In a filled span, pixel i holds the pixel's bytes, and nothing outside the span changes |
| Console.Moved | drivers/video/console_normal.c:92 | After `memmove` the destination holds the bytes the source region held before the call and every other byte is unchanged, even when the regions overlap |
| Console.MovedIdentity | drivers/video/console_normal.c:92 | Moving a block onto itself changes nothing, and moving between disjoint blocks twice is moving once |
| Console.MovedRows | drivers/video/console_normal.c:90-92 | After moving text rows, byte b of moved row t holds what byte b of source row t held |
| Console.LinesIsProduct | drivers/video/console_normal.c:358 | Advancing by `line_length` n times moves n * line_length bytes |
| Console.InkOf | drivers/video/console_normal.c:311-353 | A set bit is green (0, 0xff, 0) when the LCD has a foreground and the console foreground otherwise. A clear bit is left alone when transparent; otherwise it takes the LCD background, or the console background |
| Console.PaintAt | drivers/video/console_normal.c:326-353 | Storing a pixel sets its three bytes and no others |
| Console.DrawByteKeeps | drivers/video/console_normal.c:325-356 | Expanding a font byte changes no byte outside its eight pixels |
| Console.DrawByteAt | drivers/video/console_normal.c:325-356 | Pixel i of an expanded font byte takes the colour of bit 7 - i |
| Console.DrawRowKeeps | drivers/video/console_normal.c:321-357 | Drawing a glyph row changes no byte outside it |
| Console.DrawRowAt | drivers/video/console_normal.c:321-357 | Pixel c of a glyph row takes the colour of bit 7 - c % 8 of font byte c / 8 |
| Console.DrawGlyphNext | drivers/video/console_normal.c:301-359 | Drawing one more glyph row draws that row one scan line below the previous one, over the glyph so far |
| Console.DrawGlyphFrame | drivers/video/console_normal.c:301-359 | Bytes before the glyph and after its last row are unchanged |
| Console.DrawGlyphAt | drivers/video/console_normal.c:301-359 | Pixel c of glyph row r is r scan lines below the first row and takes the colour of its font bit |
| Console.BlankGlyphTransparent | drivers/video/console_normal.c:342-353 | A blank glyph drawn on a transparent LCD changes nothing |
| Console.GlyphRowsOk | drivers/video/console_normal.c:309 | Glyph `ch` is the 46 table rows from `ch*46 - 1702`, each a full table row |
| Bits.ShiftedByteBit | drivers/video/console_normal.c:326-355 | After i shifts of the 8-bit `bits`, the `0x80` test reads bit 7 - i of the font byte |
| Console.NormalConsole.constructor | drivers/video/console_normal.c:515-520 | The console starts on the video device's buffer with an empty grid |
| Console.NormalConsole.Probe | drivers/video/console_normal.c:495-507 | The cell is the font's size, and the grid is as many whole cells as fit: cols * width <= xsize < (cols + 1) * width, and likewise for rows |
| Console.NormalConsole.SetRow | drivers/video/console_normal.c:21-81 | An unhandled depth is -ENOSYS with nothing written. Otherwise `VIDEO_FONT_HEIGHT * xsize` pixels from the row's first byte take the row pixel, and nothing else changes |
| Console.NormalConsole.Fill8 | drivers/video/console_normal.c:31-37 | The loop leaves the span filled with the byte pixel |
| Console.NormalConsole.Fill16 | drivers/video/console_normal.c:40-46 | The loop leaves the span filled with the little-endian 16-bit pixel |
| Console.NormalConsole.Fill32 | drivers/video/console_normal.c:68-72 | The loop leaves the span filled with the little-endian 32-bit pixel |
| Console.NormalConsole.FillRgb | drivers/video/console_normal.c:50-66 | The loop leaves the span filled with the 3-byte pixel |
| Console.NormalConsole.MoveRows | drivers/video/console_normal.c:83-95 | The buffer becomes the memmove of `count` text rows from `rowsrc` to `rowdst`, and the result is 0 |
| Console.NormalConsole.PutPixel | drivers/video/console_normal.c:338-351 | The three stores set exactly one pixel |
| Console.NormalConsole.PutGlyphRow | drivers/video/console_normal.c:321-357 | The byte loop draws the whole glyph row |
| Console.NormalConsole.PutFontByte | drivers/video/console_normal.c:325-356 | The bit loop draws the font byte's eight pixels |
| Console.NormalConsole.PutcXy | drivers/video/console_normal.c:278-363 | A character ending past the console width is -EAGAIN with nothing drawn. Otherwise its 46 glyph rows are drawn one scan line apart and the result is one font width in 1/256 pixels |
| HwRev.CheckRangeOpenInterval | cmd/hwrev.c:11 | `check_range` holds exactly strictly between min and max; both ends are excluded |
| HwRev.Classify | cmd/hwrev.c:21-45 | The board is one of the four, and with the `if (1)` branch it is always RG351MP |
| HwRev.FallbackBands | cmd/hwrev.c:28-45 | Without the forced branch, (494, 534) is RG351V, (655, 695) is RG351P and anything else is v00 on the RG351P trees |
| HwRev.DoHwrev | cmd/hwrev.c:13-49 | An ADC failure is CMD_RET_FAILURE with the environment untouched. Success sets exactly the three variables to the RG351MP values, keeps every other variable, and returns CMD_RET_SUCCESS |
| HwRev.HwrevIgnoresReading | cmd/hwrev.c:23-27 | Any two successful readings give the same environment and result |

## Left out

- I/O and hardware are inputs or recorded calls, never executed. This covers the I2C fuel gauge, the key and RTC drivers, the PMIC, LEDs, regulators, GPIOs, the DSI and MCU buses, the ADC and environment variables.
- The display calls are recorded only as `ShowImage`, `ShowLogo`, `LcdOnOff`, `LcdInit` and `ScreenOff`. This covers `charge_show_bmp`'s loading (`fatload`, `blk_read_devnum`, `unzip`, `show_bmp`) and the `lcd_printf` text. The digit and voltage arithmetic it prints is modelled on its own in `ChargeArith`.
- `autowakeup_timer_init` and `autowakeup_timer_uninit` are recorded calls. Their timer-register programming and IRQ installation are not modelled.
- The timer interrupt is an input of each pass (`Tick.timerIrq`), applied at the start of the pass. Its concurrency with the loop is not modelled.
- CPU suspend itself is not modelled: `cpu_suspend`, PSCI, `wfi`, `local_irq_*` and `irqs_suspend`/`irqs_resume` appear only as the recorded calls of one suspend. `CONFIG_ARM_SMCCC` is taken as enabled.
- The stub `system_suspend_enter` of builds without IRQ support is not modelled.
- All `printf`, `debug` and `printk` output is left out, including the 20-second status line.
- The `mdelay` and `udelay` calls of the charge driver and of the SPI bit-banging are left out. The `mdelay` after a panel command, and the enable and disable delays of the panel, are recorded as `Delay` events.
- The `u32 state < 0` test in `check_key_press` can never hold and is left out.
- ChargeDriver.ChargeDevice.ChargingLoop: the `while (1)` loops run over a finite sequence of passes supplied by the environment. When the passes run out while the loop still runs, the result is None.
- ChargeDriver.ChargeDevice.ChargeExtremLowPower: the same finite-pass treatment applies to the extreme-low-power loop, including a PMIC shutdown that returns.
- ChargeDriver.ChargeDevice.Probe: the device lookups are inputs. The RTC lookup is a found/not-found flag, and the power key is its read state.
- The GO Advance build calls `charge_show_bmp(4, fg)` and `lcd_printf` in the extreme-low-power loop, which the generic build does not have. The model runs that loop with the GO Advance calls for both builds.
- `panel_simple_init`, which copies the bus format into the connector state, is not modelled.
- The GPIO and regulator requests of `rockchip_panel_probe` are not modelled; only its cmd-type choice is.
- Panel.RockchipPanel.Prepare: the regulator, GPIO and backlight power sequencing is not in the trace. Only the two regulator results that can end `prepare` early are inputs, and the trace records only the command list sent.
- Panel.RockchipPanel.Unprepare: the power-down sequencing is not in the trace.
- PanelCmds.ParseCmds: requires every counted payload to fit the buffer. In `rockchip_panel_parse_cmds` the `len > sizeof(*header)` test compares a signed length with an unsigned size, so a payload that overruns the buffer keeps the count loop reading past its end. That behaviour is not modelled.
- PanelCmds.ParseCmds: a descriptor's payload is an offset into the property buffer, not a pointer.
- Panel.RockchipPanel.OfdataToPlatdata: after a failure the C code frees the command lists but leaves the freed pointers in the platform data. The model sets them to null. The parsed `cmds` array that the C code leaks is not modelled either.
- Panel.RockchipPanel.OfdataToPlatdata: the cmd-type choice of `rockchip_panel_probe` runs only after a successful ofdata step, since a failure stops the device before probe.
- PanelCmds.Descriptors: for the same reason, requires the stream to be framed.
- Console.NormalConsole.PutcXy: only the 3-byte pixels of the live variant are modelled. The start offset of builds other than the GO Advance (`VNBYTES(bpix)` bytes per pixel) is not modelled.
- Console.NormalConsole.PutcXy: requires a character at or above 37 whose glyph is inside the font table. For smaller characters `ch*46 - 1702` indexes before the table.
- Console.NormalConsole.PutcXy: the `printf` calls inside the glyph loop are left out.
- Console.NormalConsole.PutcXy: `ch` is taken as an unsigned byte, as plain `char` is on ARM.
- Console.NormalConsole.PutcXy: the font table and its dimensions are parameters. `video_font.h` and its 32x64 font data are not part of this model.
- The commented-out `putc_xy` variants of `console_normal.c` are not compiled and are not modelled.
- Console.NormalConsole.SetRow: requires the row to fit the frame buffer, which the driver does not check.
- Console.NormalConsole.PutcXy: requires the glyph to fit the frame buffer, which the driver does not check; it checks only the x extent.
- Console.RowPixel: takes `CONFIG_VIDEO_BPP8`, `CONFIG_VIDEO_BPP16` and `CONFIG_VIDEO_BPP32` as all enabled. Each `set_row` case is compiled only under its own option; a build without one returns -ENOSYS for that depth.
- Console.NormalConsole.MoveRows: `memmove` is modelled by its result `Moved`, not byte by byte.
- Console.NormalConsole.MoveRows: requires the source and destination rows to fit the frame buffer, which the driver does not check.
- The memory layout of `struct lcd_fb_bit` and `struct video_fb_bit` is taken as blue, green, red from the lowest address. Their header is not part of this model.
- Integer widths are unbounded, except where the code truncates. The modelled truncations are the pixel stores of `set_row`, the 8-bit `bits <<= 1`, the SPI word and C's truncating `/` and `%`.
- The proofs hold for any clock readings. C's unsigned wrap-around of `get_timer` on a clock that runs backwards is not modelled.
- The several `get_timer(0)` readings of one pass of the charging loop (drivers/power/charge_animation.c:690-967) are collapsed into two per pass: `now`, read before drawing and suspending, and `later`, read after them.
