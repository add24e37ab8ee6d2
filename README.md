# MD_Vision pager firmware: display, UART framing and WiFi retry policy

This project models the ESP32 pager firmware in Dafny and proves properties of the model. It covers three parts:

- **The display driver** (`components/GUI_drivers/GUI_drivers.c`):
  - `write_to_disp` cuts a message into lines of 20 characters. It draws them under the display semaphore `xMsgDisplaySem` and flushes the frame buffer.
  - `display_update_notif` lights the notification dot while messages wait in `xMsgBufferQueue`.
  - `display_clear_msg_text` blanks the message area.
  - `write_to_disp_temp` writes a message and then clears it.
  - The `displayLoop` task is a two-state machine (idle, showing). It moves on a falling edge of the button.
- **The UART path** (`main/main.cpp`):
  - `UART_input` frames the bytes read from the UART into NUL-terminated lines. A `'\n'` or `'\r'` ends a line. Each line goes into queue `q` (10 items of 128 bytes).
  - `queue_to_disp` takes the lines in order. It writes each one and then clears it.
- **The WiFi bring-up** (`components/wifi_comms/wifi_comms.c`):
  - The WiFi and IP event handlers keep the retry counter `s_retry_num`, capped by `MAX_FAILURES` = 10. They set the SUCCESS and FAILURE bits of an event group.
  - `connect_wifi` waits for either bit and picks its result from them.
  - `init_wifi_comms` first initialises flash. It erases and retries once when the partition is full or in a newer format.

The u8g2 surface is seen only through the calls the firmware makes on it. A run is the trace of those calls (`Surface.DrawCmd`). A FreeRTOS queue is a bounded FIFO class, `Queues.Fifo`. The display semaphore is a `held` flag on `GuiDrivers.Display`.

Waits with `portMAX_DELAY` are not taken in this sequential model. A send to a full queue or a receive from an empty one is reported, and nothing changes. The exception is a task that calls `write_to_disp` while the semaphore is held: that task waits for ever, and its `hung` flag records this.

The model follows the code in these places, where its behaviour may be unexpected:
- A text longer than 20 characters gets `L/20 + 1` lines. When `L` is a multiple of 20, the last line is empty.
- `write_to_disp` returns without giving the semaphore back when the pointer is NULL or a line buffer cannot be allocated. The next writer then waits for ever (`UartMain.StuckAfterFailedRender`).
- `uart_flush` after a terminator discards everything the driver still holds. So `"\r\n"` arriving together with the line gives one message, not two.
- `UART_input` never checks `position`. After 128 ordinary bytes, the next byte would be written past `stringBuffer`. The model stops there and reports `Overflow` (`UartMain.DrainOverflow`).
- `memset` in `UART_input` clears the buffer only up to its string length, so stale bytes after the NUL remain.

## Model

| member | source | states |
|---|---|---|
| CText.StrLen | components/GUI_drivers/GUI_drivers.c:263 | strlen: the length is the index of the first NUL, or the whole buffer when there is none; no NUL comes before it |
| CText.CStr | components/GUI_drivers/GUI_drivers.c:263 | the text a char buffer holds is a prefix of it, free of NUL, followed by a NUL when shorter than the buffer |
| CText.Zeros | main/main.cpp:130 | memset to 0 over n bytes gives n NULs |
| CText.CStrOfTerminated | main/main.cpp:82 | writing a NUL right after a NUL-free text makes strlen see exactly that text |
| CText.CStrFrom | components/GUI_drivers/GUI_drivers.c:275 | the text seen from &str[j], j within the string, is the string's text from j on |
| CText.StrNCpy | components/GUI_drivers/GUI_drivers.c:275-276 | strncpy of at most n characters then a NUL at n: the copy is the first min(strlen, n) characters of the source text |
| Layout.Chunks | components/GUI_drivers/GUI_drivers.c:269-282 | the chunking loop makes L/20 + 1 lines |
| Layout.SplitLines | components/GUI_drivers/GUI_drivers.c:266-290 | one line when L <= 20, otherwise L/20 + 1 lines |
| Layout.DrawLines | components/GUI_drivers/GUI_drivers.c:280 | one DrawStr per line, line i at (14, 20 + 10 i), in order |
| Layout.ChunkAt | components/GUI_drivers/GUI_drivers.c:271-281 | line i holds the characters [20 i, min(20 i + 20, L)) |
| Layout.ChunksConcat | components/GUI_drivers/GUI_drivers.c:271-281 | the chunks joined in order give back the text |
| Layout.SplitLinesShape | components/GUI_drivers/GUI_drivers.c:266-290 | short text is one line; long text has L/20 + 1 lines, each holding [20 i, min(20 i + 20, L)) and at most 20 characters, with an empty last line when L is a multiple of 20 |
| Layout.SplitLinesConcat | components/GUI_drivers/GUI_drivers.c:271-281 | round trip: the drawn lines joined in order are the original text |
| Layout.DrawLinesTexts | components/GUI_drivers/GUI_drivers.c:280 | the text carried by the DrawStr calls is the lines joined in order, with no flush among them |
| Queues.Fifo.constructor | main/main.cpp:173 | xQueueCreate: an empty queue of the given capacity |
| Queues.Fifo.Waiting | components/GUI_drivers/GUI_drivers.c:163 | uxQueueMessagesWaiting never exceeds the capacity |
| Queues.Fifo.Send | main/main.cpp:84 | xQueueSend appends at the back exactly when there is room, and otherwise changes nothing |
| Queues.Fifo.Receive | main/main.cpp:118 | xQueueReceive takes the oldest item and leaves the rest in order; nothing on an empty queue |
| GuiDrivers.KindCode | components/GUI_drivers/GUI_drivers.h:9-25 | each message type has its enum value (0, 10, 11, 12, 20, 21, 99), and the value maps back to the type |
| GuiDrivers.KindOfCode | components/GUI_drivers/GUI_drivers.h:9-25 | an integer names a message type iff it is one of the seven enum values |
| GuiDrivers.RenderShortText | components/GUI_drivers/GUI_drivers.c:287-290 | a text of at most 20 characters is drawn as exactly one line, the whole text, at (14, 20), then one flush |
| GuiDrivers.RenderCompletedText | components/GUI_drivers/GUI_drivers.c:258-290 | a completed render draws exactly the text, in order |
| GuiDrivers.RenderCompletedFlush | components/GUI_drivers/GUI_drivers.c:283-290 | a completed render flushes exactly once, as its last call |
| GuiDrivers.RenderCompletedLines | components/GUI_drivers/GUI_drivers.c:266-290 | after the font and colour calls, call i + 2 draws line i at (14, 20 + 10 i), at most 20 characters |
| GuiDrivers.RenderAborted | components/GUI_drivers/GUI_drivers.c:273-274 | a failed allocation of line k leaves the first 20 k characters drawn and nothing flushed |
| GuiDrivers.ChunksPrefixConcat | components/GUI_drivers/GUI_drivers.c:271-281 | the first k lines joined are the first 20 k characters |
| GuiDrivers.Display.UpdateNotif | components/GUI_drivers/GUI_drivers.c:161-180 | the dot at (124, 59), radius 2, in colour 1 iff messages wait and 0 otherwise, then a flush, in both cases |
| GuiDrivers.Display.ClearMsgText | components/GUI_drivers/GUI_drivers.c:149-156 | exactly one colour-0 box at (14, 10), 100 by 80, then a flush; the semaphore is untouched |
| GuiDrivers.Display.WriteToDisp | components/GUI_drivers/GUI_drivers.c:248-297 | a held semaphore blocks the caller with nothing drawn; NULL draws nothing and keeps the semaphore; otherwise the trace grows by the render of the string's text; the semaphore is given back iff every line was drawn |
| GuiDrivers.Display.DrawText | components/GUI_drivers/GUI_drivers.c:258-290 | font and colour, then the short or the split path; completes iff no line allocation fails |
| GuiDrivers.Display.DrawOneLine | components/GUI_drivers/GUI_drivers.c:287-290 | a string of at most 20 characters is drawn whole at (14, 20), then flushed; no allocation, so it always completes |
| GuiDrivers.NextLine | components/GUI_drivers/GUI_drivers.c:275-276 | strncpy of 20 characters from &str[20 i] yields exactly line i of the layout |
| GuiDrivers.CopyAt | components/GUI_drivers/GUI_drivers.c:275-276 | strncpy of 20 characters from &str[j] yields the string's characters [j, min(j + 20, L)) |
| GuiDrivers.Display.DrawSplitLines | components/GUI_drivers/GUI_drivers.c:266-285 | the for loop draws the lines from strncpy of &str[20 i] in order, stops at the first failed allocation and flushes only when it finishes |
| GuiDrivers.Display.WriteToDispTemp | components/GUI_drivers/GUI_drivers.c:221-226 | the render of write_to_disp followed by the clear of the message area, unless the caller is blocked |
| GuiDrivers.NextMode | components/GUI_drivers/GUI_drivers.c:332-360 | only a falling edge changes the mode; from showing it always returns to idle; from idle it goes to showing iff a message waits |
| GuiDrivers.DisplayController.constructor | components/GUI_drivers/GUI_drivers.c:305-308 | the task starts idle with the button level sampled once |
| GuiDrivers.DisplayController.Cycle | components/GUI_drivers/GUI_drivers.c:324-367 | each pass updates the dot; on a press while idle with a message waiting, the oldest message is taken, written and the buffer zeroed, then showing (also when the receive fails); on a press while showing, the message area is cleared, then idle; otherwise only the last level changes; a task blocked on the semaphore stays blocked |
| UartMain.ZeroPrefix | main/main.cpp:90 | memset over the first n bytes zeroes them and keeps the rest |
| UartMain.Poll | main/main.cpp:73-101 | one read: no byte changes nothing; an ordinary byte is stored at position, which moves on; a terminator queues the whole 128-byte buffer NUL-terminated at position, zeroes it up to its string length, drops the driver's input and resets position; a full queue or a full buffer stops the step |
| UartMain.Drain | main/main.cpp:70-102 | the inner loop reads until no byte comes, the queue is full or the buffer is full |
| UartMain.DrainLine | main/main.cpp:79-101 | bytes free of terminators then a terminator queue one item: the stored bytes then those bytes then a NUL; position returns to 0 and the rest of the input is flushed |
| UartMain.DrainTerminator | main/main.cpp:79-95 | a terminator queues the line and ends the inner loop |
| UartMain.StoreStep | main/main.cpp:97-100 | an ordinary byte extends the stored line by itself and the loop goes on |
| UartMain.ReceivedLine | main/main.cpp:79-95 | from the start of a line whose bytes are free of NUL, the queued message's text is exactly the bytes before the terminator, and earlier items stay in order |
| UartMain.EmptyLine | main/main.cpp:79-95 | a terminator at the start of a line queues an empty message |
| UartMain.CrLfInOneRead | main/main.cpp:91-93 | "\r\n" arriving with the line queues one message, and the '\n' is flushed |
| UartMain.DrainOverflow | main/main.cpp:97-100 | after 128 stored bytes the next byte has no place: the loop stops there with the byte unread |
| UartMain.UartInput.constructor | main/main.cpp:62-66 | the task starts with its stack buffer as found, position 0 |
| UartMain.UartInput.Arrive | main/main.cpp:73 | bytes reach the driver's receive buffer after those already there |
| UartMain.UartInput.ReadByte | main/main.cpp:73-101 | one pass of the inner loop on the array buffer does what Poll says |
| UartMain.UartInput.ClearLine | main/main.cpp:90 | memset up to strlen: the buffer zeroed up to its old string length, the rest unchanged |
| UartMain.UartInput.ReadBytes | main/main.cpp:70-102 | the inner read loop does what Drain says |
| UartMain.Serve | main/main.cpp:110-134 | serving queued messages takes all of them unless a writer blocks, and a blocked task took at least one message and found the semaphore held |
| UartMain.ServeCons | main/main.cpp:117-131 | with the semaphore free, one message is rendered, then cleared, then the rest is served |
| UartMain.ServeInOrder | main/main.cpp:110-134 | with no failed allocation, every message is taken in FIFO order: the panel shows their texts one after another, with two flushes each, and the semaphore ends free |
| UartMain.StuckAfterFailedRender | main/main.cpp:127-129 | after a render that fails, the clear still runs, the next message is taken and the task blocks for ever; only one flush happened |
| UartMain.QueueToDisp.constructor | main/main.cpp:113 | the task starts with its stack buffer as found |
| UartMain.QueueToDisp.Step | main/main.cpp:117-131 | takes the oldest message, writes it, clears the area and zeroes msg; an empty queue changes nothing; a held semaphore blocks the task for ever |
| UartMain.QueueToDisp.Run | main/main.cpp:113-133 | the task loop until the queue is empty or the task blocks does what Serve says; msg is untouched when nothing was taken, zeroed after a finished pass, and holds the last message taken when the task blocks |
| WifiComms.StatusBits | components/wifi_comms/wifi_comms.c:27-28 | SUCCESS is bit 0, FAILURE bit 1, and they are distinct; the wait goes on exactly while neither bit is set in the event group |
| WifiComms.Bits | components/wifi_comms/wifi_comms.c:166-169 | the event group value has the SUCCESS bit iff the connection succeeded and the FAILURE bit iff the handler gave up |
| WifiComms.Deliver | components/wifi_comms/wifi_comms.c:43-83 | start: one connect, counter unchanged; disconnect under 10: one reconnect, counter + 1; disconnect at 10: no connect, FAILURE set, counter unchanged; got IP: counter 0, SUCCESS set; the counter stays in [0, 10] and bits are only ever set |
| WifiComms.Run | components/wifi_comms/wifi_comms.c:43-83 | any run of events keeps the counter in [0, 10] and never clears a bit |
| WifiComms.DisconnectRun | components/wifi_comms/wifi_comms.c:53-66 | n disconnects from counter r: the counter becomes min(r + n, 10), min(n, 10 - r) reconnects are issued, and FAILURE is set iff r + n > 10 |
| WifiComms.FailureStays | components/wifi_comms/wifi_comms.c:63-66 | at the limit, more disconnects change nothing |
| WifiComms.WaitBits | components/wifi_comms/wifi_comms.c:157-163 | the wait returns at the first state with SUCCESS or FAILURE set |
| WifiComms.ConnectStatus | components/wifi_comms/wifi_comms.c:166-175 | the result is SUCCESS iff the SUCCESS bit is set, and otherwise FAILURE |
| WifiComms.ConnectStatusCases | components/wifi_comms/wifi_comms.c:166-175 | SUCCESS wins when both bits are set; FAILURE alone, or no bit, gives FAILURE |
| WifiComms.ConnectWifi | components/wifi_comms/wifi_comms.c:157-182 | once the wait returns, the result agrees with the bits; the counter stays in [0, 10] |
| WifiComms.WaitThroughDisconnects | components/wifi_comms/wifi_comms.c:56-62 | the wait goes on through disconnects that are still answered, each counting and reconnecting |
| WifiComms.GivesUp | components/wifi_comms/wifi_comms.c:46-66 | a start then only disconnects: FAILURE after exactly 10 - r + 1 disconnects, with 11 - r connect calls |
| WifiComms.ConnectsAfterRetries | components/wifi_comms/wifi_comms.c:46-81 | a start, disconnects within the limit, then an address: SUCCESS, with the counter back to 0 |
| WifiComms.WifiLink.constructor | components/wifi_comms/wifi_comms.c:37 | s_retry_num starts at 0 |
| WifiComms.WifiLink.WifiEventHandler | components/wifi_comms/wifi_comms.c:43-68 | wifi_event_handler does what Deliver says, and keeps the counter in [0, 10] |
| WifiComms.WifiLink.IpEventHandler | components/wifi_comms/wifi_comms.c:72-83 | ip_event_handler does what Deliver says |
| WifiComms.WifiLink.ConnectWifiTask | components/wifi_comms/wifi_comms.c:106-175 | a fresh event group, the handlers run until the wait returns, and the result is what ConnectWifi says |
| WifiComms.InitNvs | components/wifi_comms/wifi_comms.c:203-209 | ready without erase iff the first init is OK; ready after one erase iff the first init reports no free pages or a new version and the erase and second init are OK; any other code that is checked aborts with that code |
| WifiComms.InitNvsNoRetry | components/wifi_comms/wifi_comms.c:203-209 | when the first result needs no erase, the erase and second init never matter |
| WifiComms.InitNvsOneErase | components/wifi_comms/wifi_comms.c:204-209 | the retry happens once: a second full-partition result aborts instead of erasing again |

## Left out

- FreeRTOS scheduling, priorities and `vTaskDelay` timing. The tasks are modelled one step at a time. Waits with `portMAX_DELAY` become "not enabled" steps. Mutual exclusion between tasks is not modelled beyond the semaphore flag.
- u8g2 pixels, fonts and the panel. Drawing is the trace of u8g2 calls.
- `malloc` failure is an input: the index of the line whose allocation fails. `printf` and logging are not modelled.
- `init_display`, `clear_disp`, `display_main_hud`, the ADC, `test_pixels` and GPIO configuration: hardware bring-up.
- The battery code in `GUI_drivers.c`: it is compiled out and uses floating point.
- `write_patient_info`: it reads fields that `display_msg_package_t` does not have.
- `display_msg_package_t` (`GUI_drivers.h` lines 28-34): no modelled code uses it; the queues carry raw char buffers.
- `main/main.c`, the SPI wrappers, `rf_comms`, the camera, the SD card and `init_tests`: outside the display, UART and WiFi paths.
- The creation of `xMsgBufferQueue` and `xMsgDisplaySem` is not part of this model. Their capacity and initial state are inputs. `displayQueue`, created with capacity 10 at `GUI_drivers.c` line 108, is never used by the modelled code.
- The UART driver's receive buffer size (1024) and the UART configuration: bytes simply arrive.
- `Queues.Fifo` item size: items are sequences. The fixed item size of `xQueueCreate` (128 bytes for `q`) is kept by the producer, which always sends its whole 128-byte buffer.
- The WiFi driver, event-loop registration, the `ESP_ERROR_CHECK` calls on driver set-up in `connect_wifi`, HTTP and `connect_tcp_server`. The events and the flash result codes are inputs. `esp_wifi_connect` calls are only counted.
- `UartMain.UartInput.ReadByte`: past 128 stored bytes the C code writes outside `stringBuffer`. The model reports `Overflow` instead of modelling that undefined behaviour.
- `GuiDrivers.Display.UpdateNotif`, `GuiDrivers.Display.ClearMsgText`: they draw without taking the semaphore, as the code does. Races with a concurrent writer are not modelled.
