/** The daemon's configuration record and its range checks (app/daemon/config.c). */
module Config {
  const DEVICE_BUFFER := 64
  const EVENT_PATH_BUFFER := 256

  /** SenseConfig of sense.h; texts are C strings, so they hold no NUL. */
  datatype SenseConfig = SenseConfig(
    device: string, width: nat, height: nat, fpsLimit: nat, jpegQuality: nat, httpPort: int, eventLog: string,
    motionEnabled: bool, motionSampleFps: nat, motionJpegScaleDenom: nat, motionPixelDeltaThreshold: nat,
    motionChangedRatioThreshold: real, motionCooldownMs: nat)

  const DEFAULT_CONFIG :=
    SenseConfig("auto", 640, 480, 30, 75, 8080, "events.jsonl", true, 3, 4, 25, 0.05, 1500)

  predicate ValidConfig(c: SenseConfig) {
    && c.device != ""
    && 1 <= c.width <= 4096
    && 1 <= c.height <= 2160
    && 1 <= c.fpsLimit <= 120
    && 1 <= c.jpegQuality <= 100
    && 1 <= c.httpPort <= 65535
    && c.eventLog != ""
    && 1 <= c.motionSampleFps <= 30
    && c.motionJpegScaleDenom in {1, 2, 4, 8}
    && 1 <= c.motionPixelDeltaThreshold <= 255
    && 0.0 < c.motionChangedRatioThreshold <= 1.0
    && 1 <= c.motionCooldownMs <= 3600000
  }

  /** validate_config, test by test; the answer does not depend on their order. */
  method ValidateConfig(c: SenseConfig) returns (ok: bool)
    ensures ok == ValidConfig(c)
  {
    if c.device == "" {
      return false;
    } else if c.width == 0 || c.width > 4096 {
      return false;
    } else if c.height == 0 || c.height > 2160 {
      return false;
    } else if c.fpsLimit == 0 || c.fpsLimit > 120 {
      return false;
    } else if c.jpegQuality == 0 || c.jpegQuality > 100 {
      return false;
    } else if c.httpPort <= 0 || c.httpPort > 65535 {
      return false;
    } else if c.eventLog == "" {
      return false;
    } else if c.motionSampleFps == 0 || c.motionSampleFps > 30 {
      return false;
    } else if c.motionJpegScaleDenom != 1 && c.motionJpegScaleDenom != 2
              && c.motionJpegScaleDenom != 4 && c.motionJpegScaleDenom != 8 {
      return false;
    } else if c.motionPixelDeltaThreshold == 0 || c.motionPixelDeltaThreshold > 255 {
      return false;
    } else if c.motionChangedRatioThreshold <= 0.0 || c.motionChangedRatioThreshold > 1.0 {
      return false;
    } else if c.motionCooldownMs == 0 || c.motionCooldownMs > 3600000 {
      return false;
    } else {
      return true;
    }
  }
}
