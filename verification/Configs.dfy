/** Constants of configs/switch.go and configs/net.go. */
module Configs {
  const SWITCH_ID_CACHE_LIFETIME := 300
  const SWITCH_ID_CACHE_MAX_ENTRIES: nat := 65536
  const SWITCH_LOUNGE_SIZE: nat := 255 * 255
  const MAX_TCP_CONNECTIONS: nat := 255 * 10
  const TCP_SOCKET_SEND_CHAN_SIZE: nat := 32
}
