/** What a connection can be armed for. */
module Epoll {

  datatype Mask = In | Out
}
