/** Types shared by every part of the firmware model: bytes, 32-bit unsigned
    integers, ESP-IDF error codes and an optional value. */
module Esp {

  /** One byte of a frame buffer (`uint8_t`). */
  type Byte = b: int | 0 <= b < 256

  /** `uint32_t`, and `size_t` on the 32-bit ESP32-S3. */
  const UINT32_LIMIT: int := 0x1_0000_0000
  type Uint32 = x: int | 0 <= x < UINT32_LIMIT

  /** `esp_err_t`: zero is success, anything else is an error code. */
  type EspErr = int
  const ESP_OK: EspErr := 0
  const ESP_FAIL: EspErr := -1

  /** A pointer that may be NULL. */
  datatype Option<T> = None | Some(value: T)
}
