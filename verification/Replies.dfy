/** Replies on the control connection and the status codes in use. */
module Replies {
  datatype Reply = Reply(code: nat, text: string)

  const FILE_STATUS_OKAY: nat := 150
  const COMMAND_OK: nat := 200
  const FILE_STATUS: nat := 213
  const SYSTEM_TYPE: nat := 215
  const SERVICE_READY: nat := 220
  const SERVICE_CLOSING: nat := 221
  const DATA_CONNECTION_CLOSING: nat := 226
  const ENTERING_PASSIVE_MODE: nat := 227
  const ENTERING_EPSV_MODE: nat := 229
  const USER_LOGGED_IN: nat := 230
  const AUTH_TLS_OK: nat := 234
  const FILE_ACTION_OK: nat := 250
  const PATHNAME_CREATED: nat := 257
  const USER_NAME_OK: nat := 331
  const SERVICE_NOT_AVAILABLE: nat := 421
  const CANNOT_OPEN_DATA: nat := 425
  const ACTION_ABORTED: nat := 451
  const INSUFFICIENT_STORAGE: nat := 452
  const SYNTAX_ERROR_PARAMS: nat := 501
  const NOT_IMPLEMENTED: nat := 502
  const UNSUPPORTED_TYPE: nat := 504
  const NOT_LOGGED_IN: nat := 530
  const FILE_ACTION_NOT_TAKEN_PERM: nat := 550
  const FILE_NAME_NOT_ALLOWED: nat := 553
}
