/** The size limits of the offline bundle (cpp-bootstrap/include/devbox/bundle.hpp). */
module BundleLimits {

  const MAXIMUM_PAYLOAD := 1024 * 1024 * 1024
  const MAXIMUM_FILE := 256 * 1024 * 1024
}
