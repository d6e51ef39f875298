/** The panel driver as the display core sees it. */
module Backend {
  import opened Geometry
  import opened Raster
  import opened Refresh
  import opened Surface
  import Core

  /** The panel driver. Its answers are scripted arbitrarily; what it does to
      the glass is tracked in ghost state. */
  class PanelBackend {
    var script: seq<Core.Answer>
    ghost var image: Image
    ghost var drive: seq<Waveform>
    ghost var log: seq<Decision>

    ghost function View(): Core.Panel
      reads this
    {
      Core.Panel(image, drive, log, script)
    }

    method Pump() returns (ok: bool)
      modifies this
      ensures ok <==> Core.Next(old(View())).Accept?
      ensures View() == Core.Pumped(old(View()))
    {
      if script == [] {
        return true;
      }
      match script[0]
      case Accept(_) =>
        script := script[1..];
        return true;
      case Fail(i, d) =>
        image, drive := i, d;
        script := script[1..];
        return false;
    }

    method Submit(frame: PixelSurface, damage: seq<Rect>, d: Decision) returns (physical: Option<nat>)
      requires frame.Valid() && |image| == frame.pixels.Length
      modifies this
      ensures physical == Core.Answered(old(View()))
      ensures View() == Core.SubmitTo(frame.width, old(View()), frame.image, damage, d)
    {
      ghost var was := View();
      if script != [] && script[0].Fail? {
        image, drive := script[0].image, script[0].drive;
        script := script[1..];
        return None;
      }
      image := Painted(frame.width, image, frame.image, damage);
      drive := Core.Driven(frame.width, drive, damage, d.waveform);
      log := log + [d];
      if script == [] {
        return Some(1);
      }
      physical := Some(script[0].physical);
      script := script[1..];
    }
  }
}
