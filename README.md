# Heartbeat colour wheel of the RP2040 keyboard firmware

This project models the one piece of self-contained logic in the firmware's
`src/main.rs`: the `heartbeat` task that cycles the on-board WS2812 LED round
a colour wheel, and the `wheel` function that turns an 8-bit wheel position
into an RGB colour.

- `RustU8` gives Rust's `u8` as a newtype on 0..=255 together with the
  semantics of a debug build: `-`, `*` and `+` are checked, and a result
  outside 0..=255 is an overflow panic (`Checked.Overflow`).
  `wrapping_add` reduces modulo 256 instead. A release build would wrap
  every operation instead of panicking; since `Wheel` never overflows, the
  two builds compute the same colours.
- `ColourWheel.Wheel` is `wheel` written over those checked operations,
  branch for branch. Its contract states that it never panics and that the
  three channels always add up to 255. Lemmas beside it state the rest:
  - which channel is dark in each sector, and the rise and fall of 3 per step;
  - the landmarks red, green, blue and back to red;
  - agreement with an independent triangle-wave description;
  - that no step of the wheel jumps by more than 3 in any channel;
  - a round trip through an inverse `Hue`;
  - that the only repeated colour is the red shared by positions 0 and 255.
- `Heartbeat.Heartbeat` runs the first `frames` iterations of the task's
  endless loop. It returns the counter and the colours handed to the LED.
  Its contract ties both to the closed form `(128 + k) mod 256`. Lemmas
  show that the counter wraps where a checked `+` would panic, and that it
  repeats every 256 frames. They also show that every 256 consecutive frames
  visit each wheel position exactly once.

## Model

| member | source | states |
|---|---|---|
| `RustU8.CheckedSub` | src/main.rs:158-168 | a `u8` subtraction succeeds exactly when it does not go below zero, and then gives the exact difference |
| `RustU8.CheckedMul` | src/main.rs:161-169 | a `u8` multiplication succeeds exactly when the product is at most 255, and then gives the exact product |
| `RustU8.CheckedAdd` | src/main.rs:144 | not a model of line 144, which calls `wrapping_add`: the plain `u8` addition that line avoids, used by `Heartbeat.WrapsWithoutPanic`; it succeeds exactly when the sum is at most 255 |
| `RustU8.WrappingAdd` | src/main.rs:144 | `wrapping_add` gives the sum modulo 256 and never panics |
| `RustU8.WrappingAgreesWithChecked` | src/main.rs:144 | `wrapping_add` equals the checked sum when that does not overflow, and otherwise lands below both operands |
| `ColourWheel.Wheel` | src/main.rs:157-171 | no subtraction or multiplication in `wheel` overflows for any input 0..=255, and red + green + blue is always 255 |
| `ColourWheel.SectorRedBlue` | src/main.rs:158-161 | inverted position below 85: green is 0, blue is 3 × the position and red is 255 minus that |
| `ColourWheel.SectorGreenBlue` | src/main.rs:162-165 | inverted position in 85..170: red is 0, green is 3 × the offset past 85 and blue is 255 minus that |
| `ColourWheel.SectorRedGreen` | src/main.rs:166-169 | inverted position 170 or more: blue is 0, red is 3 × the offset past 170 and green is 255 minus that |
| `ColourWheel.SomeChannelDark` | src/main.rs:157-171 | every colour on the wheel has at least one channel at 0 |
| `ColourWheel.Landmarks` | src/main.rs:154-171 | inputs 0 and 255 give pure red, 85 pure green and 170 pure blue: red to green to blue and back to red |
| `ColourWheel.TriangleWave` | src/main.rs:154-171 | each channel is a triangle wave peaking at 255 (red at 0 and 255, green at 85, blue at 170) and falling by 3 per step to 0 |
| `ColourWheel.Smooth` | src/main.rs:143-144 | from one heartbeat frame to the next, including the wrap from 255 to 0, no channel changes by more than 3 |
| `ColourWheel.HueRoundTrip` | src/main.rs:157-171 | the position can be read back from the colour, for every input except 255, whose colour equals that of 0 |
| `ColourWheel.OnlyRedRepeats` | src/main.rs:154-171 | two inputs give the same colour exactly when they are equal or are 0 and 255 |
| `Heartbeat.CounterStep` | src/main.rs:144 | one `wrapping_add(1)` advances the counter from its value after k frames to its value after k + 1 |
| `Heartbeat.Heartbeat` | src/main.rs:137-151 | after `frames` iterations the counter is (128 + frames) mod 256, and frame i showed `wheel((128 + i) mod 256)` |
| `Heartbeat.WrapsWithoutPanic` | src/main.rs:137-144 | the counter is 255 exactly at frames 127 mod 256; there a checked `+ 1` would panic, and `wrapping_add` takes it to 0 |
| `Heartbeat.Periodic` | src/main.rs:137-144 | the counter and the colour shown repeat every 256 frames |
| `Heartbeat.FullTurn` | src/main.rs:137-144 | any 256 consecutive frames visit each wheel position exactly once |

## Left out

- `init` (src/main.rs:52-125): clock, PLL, watchdog, GPIO, PIO and I2C bring-up and the task spawn. It is hardware initialisation with no behaviour to state.
- `Heartbeat.Heartbeat`: the source loop never ends. The model runs a given number of frames, and its contract covers every finite prefix.
- `Heartbeat.Heartbeat`: the LED write, the `brightness(…, 32)` scaling from `smart_leds` and the `Timer::delay(25.millis()).await` (src/main.rs:143, 150) are not modelled. They are foreign library calls, I/O and async scheduling. The model records the colour passed towards the LED before scaling, and assumes every write succeeds: the `.unwrap()` on that write would otherwise panic and end the task.
- The `i2c` resource is handed to the task but never used, so it is not modelled.
- RTIC task priorities and dispatch (src/main.rs:5-8): these concern scheduling, not values.
- src/usb_manager.rs: USB polling and serial echo over `usb_device` and `usbd_serial`. It is interrupt-driven I/O over libraries that are not part of this model.
- src/matrix.rs: pin configuration handed to the external `keyberon` matrix type. It holds no logic.
- src/layout.rs: a constant single-layer key table consumed by the external `keyberon` layout engine. It has no operations.
