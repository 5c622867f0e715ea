/** The board's end of the serial link: the virtual UARTs of common_uart.c. */
module VirtualUarts {
  import opened Bytes
  import opened Sermux

  class Uarts {
    const services: nat
    var serviceIdIn: sid
    var serviceIdOut: sid
    var gotEsc: bool
    var lastSent: int
    /** What went out on the physical UART, and what was put in the receive buffers. */
    var wire: seq<byte>
    var buffered: seq<Char>

    ghost predicate Valid()
      reads this
    {
      services <= 8 && Sane(End())
    }

    ghost function End(): End
      reads this
    {
      Sermux.End(Board(services), serviceIdIn, serviceIdOut, gotEsc, lastSent, false)
    }

    constructor (services: nat)
      requires services <= 8
      ensures Valid() && this.services == services && End() == Fresh(Board(services)) && wire == [] && buffered == []
    {
      this.services := services;
      serviceIdIn, serviceIdOut, gotEsc, lastSent := -1, -1, false, -1;
      wire, buffered := [], [];
    }

    method Out(b: byte)
      modifies this`wire
      ensures wire == old(wire) + [b]
    {
      wire := wire + [b];
    }

    /** platform_uart_send on a virtual UART. */
    method Send(id: byte, data: byte)
      requires Valid() && Knows(Board(services), id)
      modifies this
      ensures Valid() && End() == AfterSend(old(End()), Char(id, data))
      ensures wire == old(wire) + SendBytes(old(End()), Char(id, data)) && buffered == old(buffered)
    {
      hide Flip;
      ghost var start := wire;
      if id != serviceIdOut {
        Out(id);
      }
      lastSent := data;
      if data == ESCAPE_CHAR || data == FORCE_SID_CHAR || SERVICE_ID_FIRST <= data <= SERVICE_ID_LAST {
        Out(ESCAPE_CHAR);
        Out(Flip(data));
        lastSent := ESC_MASK + Flip(data);
      } else {
        Out(data);
      }
      serviceIdOut := id;
      assert wire == start + SendBytes(old(End()), Char(id, data));
    }

    /** cmn_rx_handler on the multiplexed UART. */
    method RxHandler(data: byte)
      requires Valid()
      modifies this
      ensures Valid() && End() == Receive(old(End()), data).end
      ensures wire == old(wire) + Receive(old(End()), data).reply
              && buffered == old(buffered) + Receive(old(End()), data).out
    {
      hide Flip;
      ghost var start := wire;
      if data != ESCAPE_CHAR {
        if SERVICE_ID_FIRST <= data < SERVICE_ID_FIRST + services {
          serviceIdIn := data;
        } else if data == FORCE_SID_CHAR && lastSent != -1 {
          Out(serviceIdOut);
          if lastSent >= ESC_MASK {
            Out(ESCAPE_CHAR);
          }
          Out(lastSent % ESC_MASK);
          assert wire == start + Receive(old(End()), data).reply;
          lastSent := -1;
        } else {
          var c := data;
          if gotEsc {
            c := Flip(c);
            gotEsc := false;
          }
          if serviceIdIn == -1 {
            Out(FORCE_SID_CHAR);
          } else {
            buffered := buffered + [Char(serviceIdIn, c)];
          }
        }
      } else {
        gotEsc := true;
      }
    }
  }
}
