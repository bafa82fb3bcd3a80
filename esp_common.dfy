/**
 * Definitions shared by the modelled components: ESP-IDF's generic
 * `esp_err_t` results, bytes, and optional values.
 */
module EspCommon {

  /** `ESP_OK` and `ESP_FAIL` of esp_err.h. */
  const ESP_OK: int := 0
  const ESP_FAIL: int := -1

  newtype byte = x: int | 0 <= x < 256

  datatype Option<T> = None | Some(value: T)
}
