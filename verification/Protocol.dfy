/** The wire protocol's constants. */
module Protocol {

  const PACKET_HEADER_LEN := 12
  const MAX_PACKET_LEN := 5018

  const MSG_TYPE_CHAT := 4

  const CMD_KEEP_ALIVE := 0x000A
  const CMD_LOGIN := 0x0101
  const CMD_LOGOUT := 0x0102
  const CMD_SET_NICK := 0x0201
  const CMD_ADD_CONTACT := 0x0301
  const CMD_ADD_CONTACT_REPLY := 0x0302
  const CMD_CONTACT_LIST := 0x0401
  const CMD_CONTACT_INFO_MULTI := 0x0402
  const CMD_MESSAGE := 0x0501
  const CMD_OFFLINE_MSG := 0x0601
  const CMD_STATUS_CHANGE := 0x1101
  const CMD_CONN_INFO := 0x1204

  const SRV_ERROR := 0x000E
  const SRV_LOGIN_OK := 0x0101
  const SRV_SET_NICK_OK := 0x0201
  const SRV_ADD_CONTACT_WAIT := 0x0301
  const SRV_CONTACT_LIST := 0x0401
  const SRV_CONTACT_INFO_MULTI := 0x0402
  const SRV_MESSAGE := 0x0501
  const SRV_OFFLINE_MSG := 0x0601
  const SRV_OFFLINE_MSG_DONE := 0x0602
}
